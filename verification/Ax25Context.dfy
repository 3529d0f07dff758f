/**
 * The mutable session context and the verbs that act on it, each proved to move `Value()` as the function of the
 * same name in Ax25Window does.
 */
module Ax25Context {
  import opened Common
  import opened Ax25Window

  class SessionContext {
    const config: Config
    var vs: nat
    var va: nat
    var vr: nat
    var peerBusy: bool
    var queue: seq<Entry>
    var sent: map<nat, Entry>
    var stored: map<nat, Entry>
    var replayed: set<nat>
    var outbox: seq<Frame>
    var delivered: seq<Entry>

    function Value(): Context
      reads this
    {
      Context(config, vs, va, vr, peerBusy, queue, sent, stored, replayed, outbox, delivered)
    }

    constructor (config: Config)
      ensures Value() == Ax25Window.Fresh(config)
    {
      this.config := config;
      vs, va, vr, peerBusy, queue := 0, 0, 0, false, [];
      sent, stored, replayed, outbox, delivered := map[], map[], {}, [], [];
    }

    /** `I command` at N(s) = V(s), then V(s) := V(s) + 1. */
    method EmitIFrame(e: Entry)
      modifies this
      ensures Value() == old(Ax25Window.Emit(Value(), IFrame(vs, vr, e)).(
                sent := sent[vs := e], replayed := replayed - {vs}, vs := Increment(Value(), vs)))
    {
      SendFrame(IFrame(vs, vr, e));
      sent := sent[vs := e];
      replayed := replayed - {vs};
      vs := Increment(Value(), vs);
    }

    method DrainIFrameQueue()
      modifies this
      ensures Value() == DrainQueue(old(Value()))
    {
      while |queue| > 0 && CanTransmit(Value())
        invariant DrainQueue(Value()) == DrainQueue(old(Value()))
        decreases |queue|
      {
        ghost var before := Value();
        var e := queue[0];
        queue := queue[1..];
        EmitIFrame(e);
        assert Value() == Transmit(before);
      }
    }

    method AdvanceVa(nr: nat)
      modifies this
      ensures Value() == Ax25Window.AdvanceVa(old(Value()), nr)
    {
      var previous := va;
      va := nr;
      if va != previous {
        replayed := {};
        PruneAcknowledged();
      }
    }

    /** Drop, one key at a time, every stored frame that is no longer outstanding. */
    method PruneAcknowledged()
      modifies this
      ensures Value() == old(Value().(sent := Pruned(Value())))
    {
      var keys := sent.Keys;
      while keys != {}
        invariant keys <= old(sent).Keys
        invariant Value() == old(Value()).(sent := sent)
        invariant sent == map ns | ns in old(sent) && (ns in keys || IsOutstanding(old(Value()), ns)) :: old(sent)[ns]
        decreases keys
      {
        var ns :| ns in keys;
        keys := keys - {ns};
        if !IsOutstanding(Value(), ns) {
          sent := sent - {ns};
        }
        assert IsOutstanding(Value(), ns) == IsOutstanding(old(Value()), ns);
      }
    }

    method EmitOldIFrame(ns: nat, selectiveReplay: bool)
      modifies this
      ensures Value() == if selectiveReplay then ReplaySelectively(old(Value()), ns) else Replay(old(Value()), ns)
    {
      if selectiveReplay {
        if !IsOutstanding(Value(), ns) || ns in replayed {
          return;
        }
        replayed := replayed + {ns};
      }
      if ns in sent {
        SendFrame(IFrame(ns, vr, sent[ns]));
      }
    }

    method SaveIncomingIFrame(ns: nat, e: Entry)
      modifies this
      ensures Value() == old(Value().(stored := stored[ns := e]))
    {
      stored := stored[ns := e];
    }

    /** Take the frame stored at V(r) out of the store, staged for the indication that follows. */
    method RetrieveStoredVrIFrame() returns (staged: Option<Entry>)
      modifies this
      ensures staged == if old(vr in stored) then Some(old(stored)[old(vr)]) else None
      ensures Value() == old(Value().(stored := stored - {vr}))
    {
      if vr !in stored {
        staged := None;
        assert stored - {vr} == stored;
      } else {
        staged := Some(stored[vr]);
        stored := stored - {vr};
      }
    }

    /** Indicate the staged frame if there is one, else the triggering frame; then V(r) := V(r) + 1. */
    method DataIndication(staged: Option<Entry>, trigger: Entry)
      modifies this
      ensures Value() == Indicate(old(Value()), if staged.Some? then staged.value else trigger)
    {
      delivered := delivered + [if staged.Some? then staged.value else trigger];
      vr := Increment(Value(), vr);
    }

    method TakeData(ns: nat, e: Entry)
      modifies this
      ensures Value() == Ax25Window.TakeData(old(Value()), ns, e)
    {
      if ns == vr {
        DataIndication(None, e);
        while vr in stored
          invariant DrainStored(Value()) == DrainStored(Indicate(old(Value()), e))
          decreases |stored|
        {
          Shrinks(stored, vr);
          var staged := RetrieveStoredVrIFrame();
          DataIndication(staged, e);
        }
      } else if config.srejEnabled && InReceiveWindow(Value(), ns) {
        SaveIncomingIFrame(ns, e);
      }
    }

    method OnFrame(f: Frame)
      modifies this
      ensures Value() == Ax25Window.OnFrame(old(Value()), f)
    {
      match f {
        case IFrame(ns, nr, e) =>
          if ValidNr(Value(), nr) {
            AdvanceVa(nr);
            TakeData(ns, e);
          }
        case Supervisory(nr) =>
          if ValidNr(Value(), nr) {
            AdvanceVa(nr);
          }
        case Srej(nr) =>
          EmitOldIFrame(nr, true);
      }
    }

    method SendFrame(f: Frame)
      modifies this
      ensures Value() == Ax25Window.Emit(old(Value()), f)
    {
      outbox := outbox + [f];
    }
  }
}

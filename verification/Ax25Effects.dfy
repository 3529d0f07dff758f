/** What the gates of an AX.25 link come to in numbers, and what a frame that does not pass them leaves alone. */
module Ax25Effects {
  import opened Common
  import opened Ax25Window

  /** The window is the configured one, within 7 or 127; with selective reject and the clamp on, within 4 or 64. */
  lemma WindowIs(config: Config)
    ensures EffectiveWindow(config) ==
              if config.srejEnabled && config.clampSrej then Min(config.k, if config.extended then 64 else 4)
              else Min(config.k, if config.extended then 127 else 7)
  {
  }

  /** How far `n` is ahead of V(a), on the ring of the link's sequence numbers. */
  function AheadOfVa(c: Context, n: nat): int {
    (n - c.va) % if c.config.extended then 128 else 8
  }

  lemma AheadIsDistance(c: Context, n: nat)
    requires n - c.va > -(if c.config.extended then 128 else 8)
    ensures Distance(n, c.va, Modulus(c.config)) == AheadOfVa(c, n)
  {
    if c.config.extended {
      assert (n - c.va + 128) % 128 == (n - c.va) % 128;
    } else {
      assert (n - c.va + 8) % 8 == (n - c.va) % 8;
    }
  }

  /** A frame that acknowledges beyond V(s) is not taken in, whatever it carries. */
  lemma BadNumberIsIgnored(c: Context, nr: nat, ns: nat, e: Entry)
    requires c.va < Modulus(c.config) && AheadOfVa(c, nr) > AheadOfVa(c, c.vs)
    ensures OnFrame(c, IFrame(ns, nr, e)) == c && OnFrame(c, Supervisory(nr)) == c
  {
    AheadIsDistance(c, nr);
    AheadIsDistance(c, c.vs);
  }

  /** One that acknowledges no further than V(s) moves V(a) there. */
  lemma GoodNumberIsTaken(c: Context, nr: nat)
    requires c.va < Modulus(c.config) && AheadOfVa(c, nr) <= AheadOfVa(c, c.vs)
    ensures OnFrame(c, Supervisory(nr)).va == nr
    ensures nr != c.va ==> OnFrame(c, Supervisory(nr)).replayed == {}
    ensures nr == c.va ==> OnFrame(c, Supervisory(nr)) == c
  {
    AheadIsDistance(c, nr);
    AheadIsDistance(c, c.vs);
  }

  /** So after progress every frame still outstanding may be replayed once more. */
  lemma ProgressRenewsReplays(c: Context, nr: nat, ns: nat)
    requires nr != c.va
    ensures ns !in AdvanceVa(c, nr).replayed
    ensures ns in AdvanceVa(c, nr).sent <==> ns in c.sent && IsOutstanding(AdvanceVa(c, nr), ns)
    ensures ns in AdvanceVa(c, nr).sent ==> AdvanceVa(c, nr).sent[ns] == c.sent[ns]
  {
  }
}

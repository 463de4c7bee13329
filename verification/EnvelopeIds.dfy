/** Envelope identifiers `agent-tick-counter` name one envelope of the whole swarm. */
module EnvelopeIds {
  import opened Basics

  function EnvelopeId(agent: string, tick: nat, counter: nat): string {
    agent + "-" + Decimal(tick) + "-" + Decimal(counter)
  }

  /** The number that decimal digits spell. */
  function Value(s: string): int {
    if s == [] then 0 else 10 * Value(s[..|s| - 1]) + (s[|s| - 1] as int - '0' as int)
  }

  lemma {:induction false} DecimalValue(n: nat)
    ensures Value(Decimal(n)) == n
  {
    var s := Decimal(n);
    if n >= 10 {
      DecimalValue(n / 10);
      assert s[..|s| - 1] == Decimal(n / 10);
    } else {
      assert s[..|s| - 1] == [];
    }
  }

  lemma DecimalInjective(m: nat, n: nat)
    requires Decimal(m) == Decimal(n)
    ensures m == n
  {
    DecimalValue(m);
    DecimalValue(n);
  }

  /** Cut at the last dash, a string ends in one number only. */
  lemma LastNumber(a: string, b: string, m: nat, n: nat)
    requires a + "-" + Decimal(m) == b + "-" + Decimal(n)
    ensures a == b && m == n
  {
    LastSeparator(a, b, Decimal(m), Decimal(n), '-');
    DecimalInjective(m, n);
  }

  /** Two envelopes carry the same identifier only when agent, tick and counter agree, also
      when agent names contain dashes and digits themselves. */
  lemma EnvelopeIdInjective(a: string, b: string, t: nat, u: nat, m: nat, n: nat)
    requires EnvelopeId(a, t, m) == EnvelopeId(b, u, n)
    ensures a == b && t == u && m == n
  {
    var left, right := a + "-" + Decimal(t), b + "-" + Decimal(u);
    assert EnvelopeId(a, t, m) == left + "-" + Decimal(m);
    assert EnvelopeId(b, u, n) == right + "-" + Decimal(n);
    LastNumber(left, right, m, n);
    LastNumber(a, b, t, u);
  }
}

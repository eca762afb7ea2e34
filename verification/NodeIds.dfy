/** Node and executor identifiers of `scheduler/node.go`, as the strings the source formats. */
module NodeIds {
  function Digit(d: nat): char
    requires d < 10
  {
    "0123456789"[d]
  }

  /** Go's %d for a non-negative number. */
  function Decimal(n: nat): string {
    if n < 10 then [Digit(n)] else Decimal(n / 10) + [Digit(n % 10)]
  }

  function CurrentId(framework: string, cluster: string, simpleId: nat): string {
    framework + "-" + cluster + "-" + Decimal(simpleId)
  }

  function ExecutorId(framework: string, cluster: string, uuid: string, generation: nat): string {
    framework + "-" + cluster + "-" + uuid + "-" + Decimal(generation)
  }

  lemma {:induction false} DecimalHasNoDash(n: nat)
    ensures '-' !in Decimal(n)
  {
    if n >= 10 {
      DecimalHasNoDash(n / 10);
    }
  }

  lemma {:induction false} DecimalLength(n: nat)
    ensures |Decimal(n)| >= 1
    ensures |Decimal(n)| == 1 <==> n < 10
  {
    if n >= 10 {
      DecimalLength(n / 10);
    }
  }

  lemma {:induction false} DecimalInjective(m: nat, n: nat)
    requires Decimal(m) == Decimal(n)
    ensures m == n
  {
    var s, t := Decimal(m), Decimal(n);
    assert s[|s| - 1] == Digit(m % 10) && t[|t| - 1] == Digit(n % 10);
    DecimalLength(m);
    DecimalLength(n);
    if m >= 10 {
      assert s[..|s| - 1] == Decimal(m / 10) && t[..|t| - 1] == Decimal(n / 10);
      DecimalInjective(m / 10, n / 10);
    }
  }

  /** Cutting at the last dash is unambiguous, however many dashes the front part holds. */
  lemma LastDash(a: string, x: string, b: string, y: string)
    requires '-' !in x && '-' !in y
    requires a + "-" + x == b + "-" + y
    ensures a == b && x == y
  {
    var s, t := a + "-" + x, b + "-" + y;
    assert s[|a|] == '-' && t[|b|] == '-';
    assert forall i :: |a| < i < |s| ==> s[i] == x[i - |a| - 1];
    assert forall i :: |b| < i < |t| ==> t[i] == y[i - |b| - 1];
    assert |a| == |b|;
    assert a == s[..|a|] && b == s[..|b|] && x == s[|a| + 1..] && y == s[|b| + 1..];
  }

  /** Two nodes of one framework share an id only if they share cluster name and simple id,
      even when names contain dashes. */
  lemma CurrentIdInjective(framework: string, c1: string, i1: nat, c2: string, i2: nat)
    ensures CurrentId(framework, c1, i1) == CurrentId(framework, c2, i2) <==> c1 == c2 && i1 == i2
  {
    if CurrentId(framework, c1, i1) == CurrentId(framework, c2, i2) {
      DecimalHasNoDash(i1);
      DecimalHasNoDash(i2);
      var p := framework + "-";
      LastDash(p + c1, Decimal(i1), p + c2, Decimal(i2));
      assert c1 == (p + c1)[|p|..] && c2 == (p + c2)[|p|..];
      DecimalInjective(i1, i2);
    }
  }

  /** Executor ids identify the persistent uuid and the launch generation; uuids have one length. */
  lemma ExecutorIdInjective(framework: string, c1: string, u1: string, g1: nat, c2: string, u2: string, g2: nat)
    requires |u1| == |u2|
    ensures ExecutorId(framework, c1, u1, g1) == ExecutorId(framework, c2, u2, g2) <==>
            c1 == c2 && u1 == u2 && g1 == g2
  {
    if ExecutorId(framework, c1, u1, g1) == ExecutorId(framework, c2, u2, g2) {
      DecimalHasNoDash(g1);
      DecimalHasNoDash(g2);
      var p := framework + "-";
      var s, t := p + c1 + "-" + u1, p + c2 + "-" + u2;
      LastDash(s, Decimal(g1), t, Decimal(g2));
      DecimalInjective(g1, g2);
      assert u1 == s[|s| - |u1|..] && u2 == t[|t| - |u2|..];
      assert c1 == s[|p|..|s| - |u1| - 1] && c2 == t[|p|..|t| - |u2| - 1];
    }
  }
}

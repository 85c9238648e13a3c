/**
 The ids that a drop gives to new nodes: the block type, an underscore, and the
 decimal rendering of the drop counter (`${type}_${n}`).
 */
module NodeIds {

  /** The decimal digit character for `d < 10`. */
  function DigitChar(d: nat): (c: char)
    requires d < 10
    ensures '0' <= c <= '9'
  {
    "0123456789"[d]
  }

  /** The value of a decimal digit character. */
  function DigitValue(c: char): (d: nat)
    requires '0' <= c <= '9'
    ensures d < 10
  {
    (c as int - '0' as int) as nat
  }

  predicate AllDigits(s: string) {
    forall i :: 0 <= i < |s| ==> '0' <= s[i] <= '9'
  }

  /** How a template string renders a natural number: its decimal digits, without leading zeros. */
  function Decimal(n: nat): (s: string)
    ensures |s| > 0 && AllDigits(s)
    ensures |s| > 1 ==> s[0] != '0'
    decreases n
  {
    if n < 10 then [DigitChar(n)] else Decimal(n / 10) + [DigitChar(n % 10)]
  }

  /** Reads a string of decimal digits back as a number. */
  function ParseDecimal(s: string): nat
    requires AllDigits(s)
  {
    if s == [] then 0 else ParseDecimal(s[..|s| - 1]) * 10 + DigitValue(s[|s| - 1])
  }

  /** Reading the decimal rendering of `n` gives back `n`. */
  lemma {:induction false} ParseDecimalOfDecimal(n: nat)
    ensures ParseDecimal(Decimal(n)) == n
    decreases n
  {
    var s := Decimal(n);
    if n < 10 {
      assert s[..0] == [];
    } else {
      ParseDecimalOfDecimal(n / 10);
      assert s[..|s| - 1] == Decimal(n / 10);
    }
  }

  /** Two counters render alike only if they are equal. */
  lemma DecimalInjective(m: nat, n: nat)
    ensures Decimal(m) == Decimal(n) ==> m == n
  {
    ParseDecimalOfDecimal(m);
    ParseDecimalOfDecimal(n);
  }

  /** The id `${blockType}_${n}` of the node created by the `n`-th drop. */
  function NodeId(blockType: string, n: nat): (id: string)
    ensures |id| == |blockType| + 1 + |Decimal(n)|
    ensures id[|blockType|] == '_' && id[..|blockType|] == blockType
    ensures id[|blockType| + 1..] == Decimal(n)
  {
    blockType + "_" + Decimal(n)
  }

  /**
   Splitting off the part after the last separator: a separator-free tail is
   determined by the string, and so is the head in front of it.
   */
  lemma SplitAtLast(a: string, d: string, b: string, e: string, sep: char)
    requires sep !in d && sep !in e
    requires a + [sep] + d == b + [sep] + e
    ensures a == b && d == e
  {
    var s := a + [sep] + d;
    if |d| < |e| {
      CharAt(a, d, b, e, sep);
      assert false;
    } else if |e| < |d| {
      CharAt(b, e, a, d, sep);
      assert false;
    } else {
      assert d == s[|a| + 1..];
      assert e == s[|b| + 1..];
      assert a == s[..|a|];
      assert b == s[..|b|];
    }
  }

  /** Where the shorter tail's separator falls, the longer tail has one of its own characters. */
  lemma CharAt(a: string, d: string, b: string, e: string, sep: char)
    requires |d| < |e| && |a| + |d| == |b| + |e|
    ensures (a + [sep] + d)[|a|] == sep
    ensures (b + [sep] + e)[|a|] == e[|a| - |b| - 1]
  {
  }

  /**
   Node ids are injective in the pair (block type, counter), even for block types
   that contain an underscore, because the decimal tail never does.
   */
  lemma NodeIdInjective(t1: string, n1: nat, t2: string, n2: nat)
    ensures NodeId(t1, n1) == NodeId(t2, n2) <==> t1 == t2 && n1 == n2
  {
    if NodeId(t1, n1) == NodeId(t2, n2) {
      var d1, d2 := Decimal(n1), Decimal(n2);
      assert t1 + ['_'] + d1 == NodeId(t1, n1);
      assert t2 + ['_'] + d2 == NodeId(t2, n2);
      SplitAtLast(t1, d1, t2, d2, '_');
      DecimalInjective(n1, n2);
    }
  }
}

/**
 * Free symbols of the log-likelihood formula. An ancestral node's symbols are named
 * "<node index>_<component index>", both written in decimal as Python's "%s" writes an int;
 * symengine identifies a symbol by its name, so the naming must never let two
 * (node, component) pairs collide.
 */
module Symbols {

  predicate IsDigit(ch: char) {
    '0' <= ch <= '9'
  }

  predicate AllDigits(s: string) {
    forall i :: 0 <= i < |s| ==> IsDigit(s[i])
  }

  function DigitChar(d: nat): (ch: char)
    requires d < 10
    ensures IsDigit(ch)
  {
    (48 + d) as char
  }

  function DigitValue(ch: char): (d: nat)
    requires IsDigit(ch)
    ensures d < 10 && DigitChar(d) == ch
  {
    ch as int - 48
  }

  /** The decimal text of `n`, without sign or leading zeros ("%s" % n). */
  function Decimal(n: nat): (s: string)
    ensures |s| >= 1 && AllDigits(s)
    decreases n
  {
    if n < 10 then [DigitChar(n)] else Decimal(n / 10) + [DigitChar(n % 10)]
  }

  /** Reads a string of decimal digits back as a number. */
  function ParseDecimal(s: string): nat
    requires AllDigits(s)
    decreases |s|
  {
    if s == [] then 0 else ParseDecimal(s[..|s| - 1]) * 10 + DigitValue(s[|s| - 1])
  }

  /** Parsing undoes `Decimal`. */
  lemma {:induction false} ParseDecimalOfDecimal(n: nat)
    ensures ParseDecimal(Decimal(n)) == n
    decreases n
  {
    var s := Decimal(n);
    if n >= 10 {
      ParseDecimalOfDecimal(n / 10);
      assert s[..|s| - 1] == Decimal(n / 10);
      assert DigitValue(s[|s| - 1]) == n % 10;
    }
  }

  /** Distinct numbers have distinct decimal texts. */
  lemma DecimalInjective(m: nat, n: nat)
    ensures Decimal(m) == Decimal(n) <==> m == n
  {
    ParseDecimalOfDecimal(m);
    ParseDecimalOfDecimal(n);
  }

  /** The name `sym_ancestral_vectors` gives component `component` of node `nodeId`. */
  function SymbolName(nodeId: nat, component: nat): string {
    Decimal(nodeId) + "_" + Decimal(component)
  }

  /** Splitting at the first '_' recovers both digit strings. */
  lemma SplitAtUnderscore(a1: string, b1: string, a2: string, b2: string)
    requires AllDigits(a1) && AllDigits(a2)
    requires a1 + "_" + b1 == a2 + "_" + b2
    ensures a1 == a2 && b1 == b2
  {
    var s := a1 + "_" + b1;
    // s[|a1|] is the separator, which no digit of a2 can be, and symmetrically
    assert s[|a1|] == '_' && !IsDigit('_');
    assert |a1| >= |a2|;
    assert s[|a2|] == '_';
    assert a1 == s[..|a1|] == a2;
    assert b1 == s[|a1| + 1..] == b2;
  }

  /** "%s_%s" is injective on pairs of naturals: no two ancestral symbols share a name. */
  lemma SymbolNameInjective(k1: nat, c1: nat, k2: nat, c2: nat)
    ensures SymbolName(k1, c1) == SymbolName(k2, c2) <==> k1 == k2 && c1 == c2
  {
    if SymbolName(k1, c1) == SymbolName(k2, c2) {
      SplitAtUnderscore(Decimal(k1), Decimal(c1), Decimal(k2), Decimal(c2));
      DecimalInjective(k1, k2);
      DecimalInjective(c1, c2);
    }
  }

  /**
   * A free symbol of the formula. `BrownianRate` is the rate parameter of the Brownian motion
   * model, whose name is fixed in a file that is not part of this model.
   */
  datatype Symbol = Symbol(name: string) | BrownianRate

  /** The symbol of component `component` of ancestral node `nodeId`. */
  function NodeSymbol(nodeId: nat, component: nat): Symbol {
    Symbol(SymbolName(nodeId, component))
  }

  lemma NodeSymbolInjective(k1: nat, c1: nat, k2: nat, c2: nat)
    ensures NodeSymbol(k1, c1) == NodeSymbol(k2, c2) <==> k1 == k2 && c1 == c2
  {
    SymbolNameInjective(k1, c1, k2, c2);
  }
}

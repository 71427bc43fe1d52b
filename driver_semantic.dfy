/**
 * The base semantic analyzer (`driver/semantic_analyzer.py`): a symbol
 * table, a counter for fresh temporaries and the list of emitted
 * three-address instructions, with a semantic action that computes nothing.
 */
module Semantic {
  import opened Wrappers
  import opened Grammar
  import opened Symbols
  import LrParser

  /** The decimal digits of `n`, most significant first, without leading zeros, as Python's `str` of an int. */
  function Decimal(n: nat): (r: string)
    ensures |r| >= 1 && (n >= 10 ==> |r| >= 2) && (r[0] == '0' ==> n == 0)
    ensures forall i :: 0 <= i < |r| ==> '0' <= r[i] <= '9'
  {
    if n < 10 then ["0123456789"[n]]
    else Decimal(n / 10) + ["0123456789"[n % 10]]
  }

  /** The number a string of decimal digits denotes, most significant first, as Python's `int` reads it. */
  function DecimalValue(s: string): nat
  {
    if s == [] then 0
    else 10 * DecimalValue(s[..|s| - 1]) + (if '0' <= s[|s| - 1] <= '9' then s[|s| - 1] as int - '0' as int else 0)
  }

  /** The digit character of a value below ten reads back as that value. */
  lemma DigitValue(k: nat)
    requires k < 10
    ensures "0123456789"[k] as int - '0' as int == k
  {
  }

  /** Reading the decimal form back gives the number. */
  lemma {:induction false} DecimalRoundTrip(n: nat)
    ensures DecimalValue(Decimal(n)) == n
  {
    var d := Decimal(n);
    if n < 10 {
      DigitValue(n);
      assert d[..0] == [];
    } else {
      DecimalRoundTrip(n / 10);
      DigitValue(n % 10);
      assert d[..|d| - 1] == Decimal(n / 10);
    }
  }

  /** Different digit values are different characters. */
  lemma DigitInjective(x: nat, y: nat)
    requires x < 10 && y < 10 && "0123456789"[x] == "0123456789"[y]
    ensures x == y
  {
  }

  /** Different numbers have different decimal forms. */
  lemma {:induction false} DecimalInjective(a: nat, b: nat)
    requires Decimal(a) == Decimal(b)
    ensures a == b
  {
    var da, db := Decimal(a), Decimal(b);
    if a < 10 && b < 10 {
      DigitInjective(a, b);
    } else if a >= 10 && b >= 10 {
      assert da[..|da| - 1] == Decimal(a / 10) && db[..|db| - 1] == Decimal(b / 10);
      DecimalInjective(a / 10, b / 10);
      assert da[|da| - 1] == "0123456789"[a % 10] && db[|db| - 1] == "0123456789"[b % 10];
      DigitInjective(a % 10, b % 10);
    } else {
      assert false;
    }
  }

  /** The name of the `k`-th temporary: `t1`, `t2`, … */
  function TempName(k: nat): (r: string)
    ensures |r| >= 2 && r[0] == 't' && r[1..] == Decimal(k)
  {
    "t" + Decimal(k)
  }

  /** Temporaries with different numbers have different names. */
  lemma TempNamesDistinct(i: nat, j: nat)
    requires i != j
    ensures TempName(i) != TempName(j)
  {
    if TempName(i) == TempName(j) {
      assert Decimal(i) == TempName(i)[1..] == TempName(j)[1..] == Decimal(j);
      DecimalInjective(i, j);
    }
  }

  /** `SemanticAnalyzer`; `V` is the type of symbol-table entries and semantic values. */
  class SemanticAnalyzer<V> {
    var symbolTable: map<string, V>
    var tempCounter: nat
    var intermediateCode: seq<string>

    constructor ()
      ensures symbolTable == map[] && tempCounter == 0 && intermediateCode == []
    {
      symbolTable, tempCounter, intermediateCode := map[], 0, [];
    }

    /**
     * `new_temp`: counts one more temporary and names it after the count,
     * so the name differs from every name handed out before.
     */
    method NewTemp() returns (name: string)
      modifies this
      ensures tempCounter == old(tempCounter) + 1 && name == TempName(tempCounter)
      ensures forall k :: 1 <= k <= old(tempCounter) ==> name != TempName(k)
      ensures symbolTable == old(symbolTable) && intermediateCode == old(intermediateCode)
    {
      tempCounter := tempCounter + 1;
      name := "t" + Decimal(tempCounter);
      forall k | 1 <= k <= old(tempCounter) ensures name != TempName(k) {
        TempNamesDistinct(tempCounter, k);
      }
    }

    /** `emit`: one instruction after all earlier ones. */
    method Emit(code: string)
      modifies this
      ensures intermediateCode == old(intermediateCode) + [code] && GetCode()[..|old(GetCode())|] == old(GetCode())
      ensures symbolTable == old(symbolTable) && tempCounter == old(tempCounter)
    {
      intermediateCode := intermediateCode + [code];
    }

    /** `add_symbol`: the entry for `name` is set, replacing any earlier one; no other entry changes. */
    method AddSymbol(name: string, typeOrValue: V)
      modifies this
      ensures symbolTable == old(symbolTable)[name := typeOrValue]
      ensures LookupSymbol(name) == Some(typeOrValue)
      ensures forall other :: other != name ==> LookupSymbol(other) == old(LookupSymbol(other))
      ensures tempCounter == old(tempCounter) && intermediateCode == old(intermediateCode)
    {
      symbolTable := symbolTable[name := typeOrValue];
    }

    /** `lookup_symbol`: the stored entry, or None when the name has none. */
    function LookupSymbol(name: string): (r: Option<V>)
      reads this
      ensures r.Some? <==> name in symbolTable
      ensures r.Some? ==> r.value == symbolTable[name]
    {
      if name in symbolTable then Some(symbolTable[name]) else None
    }

    /** `semantic_action` of the base class: no value, for any production and symbols. */
    function SemanticAction(production: Production, symbols: seq<Symbol<V>>): (r: Option<V>)
      ensures r.None?
    {
      None
    }

    /** `get_code`: the instructions in the order they were emitted. */
    function GetCode(): (r: seq<string>)
      reads this
      ensures |r| == |intermediateCode| && forall i :: 0 <= i < |r| ==> r[i] == intermediateCode[i]
    {
      intermediateCode
    }
  }

  /**
   * An LR parse whose callback is the base analyzer's action gives every
   * reduced symbol no value, even when the popped symbols carry values.
   */
  lemma BaseActionYieldsNoValue<V>(a: SemanticAnalyzer<V>, p: Production, popped: seq<Symbol<V>>)
    ensures LrParser.SemanticValue(Some((q, ss) => a.SemanticAction(q, ss)), p, popped) == None
  {
  }
}

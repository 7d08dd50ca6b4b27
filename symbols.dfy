/**
 * Ticker-symbol normalisation in lib/db.py: `(symbol or "").upper().strip()`.
 * Upper-casing and whitespace are modelled over ASCII.
 */
module Symbols {
  import opened Wrappers

  predicate IsLower(c: char) { 'a' <= c <= 'z' }

  /** Python's `str.isspace` on ASCII: tab, line feed, vertical tab, form feed, carriage return, the separators 0x1C-0x1F, and space. */
  predicate IsSpace(c: char) { 9 <= c as int <= 13 || 28 <= c as int <= 32 }

  function UpperChar(c: char): (d: char)
    ensures !IsLower(d)
    ensures IsLower(c) ==> d as int == c as int - 32
    ensures !IsLower(c) ==> d == c
    ensures IsSpace(d) <==> IsSpace(c)
  {
    if IsLower(c) then (c as int - 32) as char else c
  }

  /** `str.upper()` over ASCII. */
  function Upper(s: string): (r: string)
    ensures |r| == |s|
    ensures forall i :: 0 <= i < |s| ==> r[i] == UpperChar(s[i])
  {
    if s == [] then [] else [UpperChar(s[0])] + Upper(s[1..])
  }

  /** `str.lstrip()`: drops the leading whitespace. */
  function TrimStart(s: string): (r: string)
    ensures |r| <= |s| && r == s[|s| - |r|..]
    ensures forall j :: 0 <= j < |s| - |r| ==> IsSpace(s[j])
    ensures r != [] ==> !IsSpace(r[0])
  {
    if s != [] && IsSpace(s[0]) then TrimStart(s[1..]) else s
  }

  /** `str.rstrip()`: drops the trailing whitespace. */
  function TrimEnd(s: string): (r: string)
    ensures |r| <= |s| && r == s[..|r|]
    ensures forall j :: |r| <= j < |s| ==> IsSpace(s[j])
    ensures r != [] ==> !IsSpace(r[|r| - 1])
  {
    if s != [] && IsSpace(s[|s| - 1]) then TrimEnd(s[..|s| - 1]) else s
  }

  /** `r` is `s` from index `k` on, with only whitespace cut off before and after it. */
  predicate CutFrom(s: string, k: int, r: string) {
    && 0 <= k <= |s| - |r|
    && r == s[k..k + |r|]
    && (forall j :: 0 <= j < k ==> IsSpace(s[j]))
    && (forall j :: k + |r| <= j < |s| ==> IsSpace(s[j]))
  }

  /** `str.strip()`: the input with its leading and trailing whitespace cut off. */
  function Strip(s: string): (r: string)
    ensures r != [] ==> !IsSpace(r[0]) && !IsSpace(r[|r| - 1])
    ensures exists k :: CutFrom(s, k, r)
  {
    var t := TrimStart(s);
    var r := TrimEnd(t);
    var k := |s| - |t|;
    assert forall j :: k + |r| <= j < |s| ==> s[j] == t[j - k];
    assert CutFrom(s, k, r);
    r
  }

  /** A symbol in normal form: no lower-case letter and no whitespace at either end. */
  predicate IsNormal(s: string) {
    && (forall i :: 0 <= i < |s| ==> !IsLower(s[i]))
    && (s != [] ==> !IsSpace(s[0]) && !IsSpace(s[|s| - 1]))
  }

  /** `symbol.upper().strip()`, as applied to every symbol read from the file (lib/db.py:22) and to every key. */
  function NormalizeSymbol(s: string): (r: string)
    ensures IsNormal(r)
    ensures |r| <= |s|
  {
    Strip(Upper(s))
  }

  /** `(symbol or "").upper().strip()`: a missing symbol normalises to the empty key. */
  function NormalizeKey(symbol: Option<string>): (r: string)
    ensures symbol.None? ==> r == ""
    ensures IsNormal(r)
  {
    NormalizeSymbol(symbol.GetOr(""))
  }

  lemma {:induction false} UpperOfNormal(s: string)
    requires forall i :: 0 <= i < |s| ==> !IsLower(s[i])
    ensures Upper(s) == s
  {
    assert forall i :: 0 <= i < |s| ==> Upper(s)[i] == s[i];
  }

  /** A symbol is left unchanged by normalisation exactly when it is already in normal form. */
  lemma {:induction false} NormalizeFixpoint(s: string)
    ensures NormalizeSymbol(s) == s <==> IsNormal(s)
  {
    if IsNormal(s) {
      UpperOfNormal(s);
      assert TrimStart(s) == s;
      assert TrimEnd(s) == s;
    }
  }

  /** Normalising twice is normalising once. */
  lemma {:induction false} NormalizeIdempotent(s: string)
    ensures NormalizeSymbol(NormalizeSymbol(s)) == NormalizeSymbol(s)
  {
    NormalizeFixpoint(NormalizeSymbol(s));
  }

  /** A symbol normalises to the empty key exactly when it is empty or all whitespace. */
  lemma {:induction false} NormalizeEmpty(s: string)
    ensures NormalizeSymbol(s) == "" <==> forall i :: 0 <= i < |s| ==> IsSpace(s[i])
  {
    var u := Upper(s);
    var t := TrimStart(u);
    if forall i :: 0 <= i < |s| ==> IsSpace(s[i]) {
      assert forall i :: 0 <= i < |u| ==> IsSpace(u[i]);
    }
    if NormalizeSymbol(s) == "" {
      assert t == [];
      forall i | 0 <= i < |s|
        ensures IsSpace(s[i])
      {
        assert IsSpace(u[i]);
      }
    }
  }

  /** The worked examples of key normalisation. */
  lemma NormalizeExamples()
    ensures NormalizeKey(Some(" ab ")) == "AB"
    ensures NormalizeKey(Some("\t\n")) == ""
    ensures NormalizeKey(None) == ""
  {
    assert Upper(" ab ") == " AB " by {
      assert forall i :: 0 <= i < 4 ==> Upper(" ab ")[i] == " AB "[i];
    }
    assert TrimStart(" AB ") == "AB " by {
      assert " AB "[1..] == "AB ";
    }
    assert TrimEnd("AB ") == "AB" by {
      assert "AB "[..2] == "AB";
    }
    NormalizeEmpty("\t\n");
  }
}

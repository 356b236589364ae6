/** ASCII text and column-name helpers shared by the cleaning rules and the loader. */
module Text {
  import opened Wrappers

  predicate IsUpper(c: char) { 'A' <= c <= 'Z' }

  /** Lower-case one character (ASCII letters only). */
  function LowerChar(c: char): (r: char)
    ensures !IsUpper(r)
    ensures IsUpper(c) ==> r as int == c as int + 32
    ensures !IsUpper(c) ==> r == c
  {
    if IsUpper(c) then (c as int + 32) as char else c
  }

  /** `str.lower()` restricted to ASCII letters. */
  function Lower(s: string): string
  {
    if s == [] then [] else [LowerChar(s[0])] + Lower(s[1..])
  }

  /** Lowering keeps the length, lowers each character in place and leaves no upper-case letter. */
  lemma {:induction false} LowerAt(s: string)
    ensures |Lower(s)| == |s|
    ensures forall i :: 0 <= i < |s| ==> Lower(s)[i] == LowerChar(s[i])
  {
    if s != [] {
      LowerAt(s[1..]);
      assert forall i :: 1 <= i < |s| ==> Lower(s)[i] == Lower(s[1..])[i - 1];
    }
  }

  lemma LowerHasNoUpper(s: string)
    ensures forall i :: 0 <= i < |Lower(s)| ==> !IsUpper(Lower(s)[i])
  {
    LowerAt(s);
  }

  /** Lowering twice is lowering once. */
  lemma LowerIdempotent(s: string)
    ensures Lower(Lower(s)) == Lower(s)
  {
    LowerAt(s);
    LowerAt(Lower(s));
  }

  /** A string already in lower case is left alone. */
  lemma {:induction false} LowerOfLower(s: string)
    requires forall i :: 0 <= i < |s| ==> !IsUpper(s[i])
    ensures Lower(s) == s
  {
    LowerAt(s);
  }

  /** `str.replace(from, to)` for single characters. */
  function ReplaceChar(s: string, from: char, to: char): string
  {
    if s == [] then [] else [if s[0] == from then to else s[0]] + ReplaceChar(s[1..], from, to)
  }

  lemma {:induction false} ReplaceCharAt(s: string, from: char, to: char)
    ensures |ReplaceChar(s, from, to)| == |s|
    ensures forall i :: 0 <= i < |s| ==>
      ReplaceChar(s, from, to)[i] == if s[i] == from then to else s[i]
  {
    if s != [] {
      ReplaceCharAt(s[1..], from, to);
      assert forall i :: 1 <= i < |s| ==>
        ReplaceChar(s, from, to)[i] == ReplaceChar(s[1..], from, to)[i - 1];
    }
  }

  /**
   * The first of `wanted`, in order, that `have` lacks: the column a pandas
   * lookup `df[c]` fails on with `KeyError`, or the frame column `to_sql`
   * finds no table column for.
   */
  function FirstAbsent(have: seq<string>, wanted: seq<string>): (r: Option<string>)
    ensures r.None? <==> forall k :: 0 <= k < |wanted| ==> wanted[k] in have
    ensures r.Some? ==> r.value in wanted && r.value !in have
    ensures r.Some? ==> exists k :: 0 <= k < |wanted| && wanted[k] == r.value && forall j :: 0 <= j < k ==> wanted[j] in have
  {
    if wanted == [] then None
    else if wanted[0] !in have then Some(wanted[0])
    else
      assert forall j :: 1 <= j < |wanted| ==> wanted[j] == wanted[1..][j - 1];
      FirstAbsent(have, wanted[1..])
  }
}

/**
 * The string operations the components rely on: caseless comparison, trimming and searching.
 * Case folding is the simple per-character mapping of an ordinal caseless comparison,
 * written out for the ASCII letters.
 */
module Text {
  import opened Common

  function Upper(c: char): char {
    if 'a' <= c <= 'z' then ((c as int) - 32) as char else c
  }

  /** Two strings are equal ignoring case exactly when their folds are equal. */
  function Fold(s: string): (r: string)
    ensures |r| == |s|
  {
    seq(|s|, i requires 0 <= i < |s| => Upper(s[i]))
  }

  /** Two letters differ in case alone when one is a small one and the other its capital. */
  predicate SameButCase(c: char, d: char) {
    c == d || IsCapitalOf(c, d) || IsCapitalOf(d, c)
  }

  predicate IsCapitalOf(c: char, d: char) {
    'a' <= d <= 'z' && (d as int) - ('a' as int) == (c as int) - ('A' as int)
  }

  lemma UppersAgreeIff(c: char, d: char)
    ensures Upper(c) == Upper(d) <==> SameButCase(c, d)
  {
  }

  /** Folds agree exactly on strings that differ in the case of letters alone. */
  lemma FoldsAgreeIff(s: string, t: string)
    ensures Fold(s) == Fold(t) <==> |s| == |t| && forall i | 0 <= i < |s| :: SameButCase(s[i], t[i])
  {
    forall i | 0 <= i < |s| && i < |t| ensures Fold(s)[i] == Fold(t)[i] <==> SameButCase(s[i], t[i]) {
      UppersAgreeIff(s[i], t[i]);
    }
  }

  predicate StartsWithFold(s: string, prefix: string) {
    |prefix| <= |s| && Fold(s[..|prefix|]) == Fold(prefix)
  }

  predicate IsSpace(c: char) {
    var n := c as int;
    n == 0x20 || 0x09 <= n <= 0x0D || n == 0x85 || n == 0xA0 || n == 0x1680
    || 0x2000 <= n <= 0x200A || n == 0x2028 || n == 0x2029 || n == 0x202F || n == 0x205F || n == 0x3000
  }

  function TrimStart(s: string): (r: string)
    ensures r != [] ==> !IsSpace(r[0])
  {
    if s != "" && IsSpace(s[0]) then TrimStart(s[1..]) else s
  }

  function TrimEnd(s: string): (r: string)
    ensures r != [] ==> !IsSpace(r[|r| - 1])
    ensures r <= s
  {
    if s != "" && IsSpace(s[|s| - 1]) then TrimEnd(s[..|s| - 1]) else s
  }

  function Trim(s: string): (r: string)
    ensures r != [] ==> !IsSpace(r[0]) && !IsSpace(r[|r| - 1])
  {
    TrimEnd(TrimStart(s))
  }

  lemma TrimFixed(s: string)
    requires s == [] || (!IsSpace(s[0]) && !IsSpace(s[|s| - 1]))
    ensures Trim(s) == s
  {
  }

  /** `Substring(i, |p|) == p`. */
  predicate At(s: string, p: string, i: nat) {
    i + |p| <= |s| && s[i..i + |p|] == p
  }

  /** Ordinal IndexOf from a starting position. */
  function IndexOf(s: string, p: string, from: nat): (r: Option<nat>)
    ensures r.Some? ==> from <= r.value && At(s, p, r.value) && forall i | from <= i < r.value :: !At(s, p, i)
    ensures r.None? ==> forall i | from <= i :: !At(s, p, i)
    decreases |s| - from
  {
    if from + |p| > |s| then None
    else if At(s, p, from) then Some(from)
    else IndexOf(s, p, from + 1)
  }

  predicate Occurs(s: string, p: string) {
    exists i: nat | i <= |s| :: At(s, p, i)
  }

  /**
   * A pattern whose last character occurs nowhere else in it cannot straddle the end of a text
   * that does not contain it, so a search finds the copy written right after that text.
   */
  lemma IndexOfAfter(before: string, p: string, rest: string, from: nat)
    requires p != "" && forall i | 0 <= i < |p| - 1 :: p[i] != p[|p| - 1]
    requires from <= |before| && !Occurs(before[from..], p)
    ensures IndexOf(before + p + rest, p, from) == Some(|before|)
  {
    var s := before + p + rest;
    assert At(s, p, |before|) by {
      assert s[|before|..|before| + |p|] == p;
    }
    forall i: nat | from <= i < |before|
      ensures !At(s, p, i)
    {
      if i + |p| <= |before| {
        assert before[from..][i - from..i - from + |p|] == s[i..i + |p|];
        assert At(s, p, i) ==> At(before[from..], p, i - from);
      } else if i + |p| <= |s| {
        assert s[i..i + |p|][|p| - 1] == s[i + |p| - 1] == p[i + |p| - 1 - |before|];
      }
    }
  }

  lemma IndexOfUnique(s: string, p: string, from: nat, k: nat)
    requires from <= k && At(s, p, k) && forall i: nat | from <= i < k :: !At(s, p, i)
    ensures IndexOf(s, p, from) == Some(k)
  {
  }

  lemma NoOccurrence(s: string, p: string, c: char)
    requires c in p && c !in s
    ensures !Occurs(s, p)
  {
    var k :| 0 <= k < |p| && p[k] == c;
    forall i: nat | i <= |s| ensures !At(s, p, i) {
      if i + |p| <= |s| {
        assert s[i..i + |p|][k] == s[i + k];
      }
    }
  }

  lemma {:induction false} TrimStartKeeps(s: string)
    ensures forall c | c in TrimStart(s) :: c in s
  {
    if s != "" && IsSpace(s[0]) {
      TrimStartKeeps(s[1..]);
    }
  }

  /** Trimming adds no character. */
  lemma TrimKeeps(s: string)
    ensures forall c | c in Trim(s) :: c in s
  {
    TrimStartKeeps(s);
  }

  lemma DiffersAt(s: string, marker: string, i: nat)
    requires i < |marker| && (i < |s| ==> Upper(s[i]) != Upper(marker[i]))
    ensures !StartsWithFold(s, marker)
  {
    if |marker| <= |s| {
      assert Fold(s[..|marker|])[i] != Fold(marker)[i];
    }
  }

  lemma {:induction false} TrimStartDropsSpaces(s: string) returns (n: nat)
    ensures n <= |s| && TrimStart(s) == s[n..] && forall i | 0 <= i < n :: IsSpace(s[i])
  {
    n := 0;
    if s != "" && IsSpace(s[0]) {
      var m := TrimStartDropsSpaces(s[1..]);
      n := m + 1;
    }
  }

  /** What TrimEnd takes off is space. */
  lemma {:induction false} BlankTail(s: string, k: nat)
    requires |TrimEnd(s)| <= k < |s|
    ensures IsSpace(s[k])
    decreases |s|
  {
    if k < |s| - 1 {
      BlankTail(s[..|s| - 1], k);
    }
  }

  /** A mark that begins and ends with no space is in a text exactly when it is in the trimmed text. */
  lemma TrimKeepsMarks(s: string, mark: string)
    requires mark != "" && !IsSpace(mark[0]) && !IsSpace(mark[|mark| - 1])
    ensures Occurs(Trim(s), mark) <==> Occurs(s, mark)
  {
    var n := TrimStartDropsSpaces(s);
    var front := TrimStart(s);
    var kept := |Trim(s)|;
    assert Trim(s) == front[..kept] == s[n..n + kept];
    if Occurs(Trim(s), mark) {
      var i: nat :| i <= kept && At(Trim(s), mark, i);
      assert s[n + i..n + i + |mark|] == Trim(s)[i..i + |mark|];
      assert At(s, mark, n + i);
    }
    if Occurs(s, mark) {
      var i: nat :| i <= |s| && At(s, mark, i);
      assert s[i] == mark[0] && s[i + |mark| - 1] == mark[|mark| - 1];
      MarkIsKept(s, mark, i, n);
      assert Trim(s)[i - n..i - n + |mark|] == s[i..i + |mark|];
      assert At(Trim(s), mark, i - n);
    }
  }

  lemma MarkIsKept(s: string, mark: string, i: nat, n: nat)
    requires mark != "" && !IsSpace(mark[0]) && !IsSpace(mark[|mark| - 1])
    requires i + |mark| <= |s| && s[i] == mark[0] && s[i + |mark| - 1] == mark[|mark| - 1]
    requires n <= |s| && TrimStart(s) == s[n..] && forall j | 0 <= j < n :: IsSpace(s[j])
    ensures n <= i && i + |mark| <= n + |Trim(s)|
  {
    var last := i + |mark| - 1 - n;
    assert n <= i;
    if |Trim(s)| <= last {
      BlankTail(TrimStart(s), last);
      assert false;
    }
  }
}

/** String trimming and splitting as the source's string methods do it, on ASCII white space. */
module Text {

  predicate IsSpace(c: char) {
    c == ' ' || '\t' <= c <= '\r' || '\U{1c}' <= c <= '\U{1f}'
  }

  function StripLeft(s: string): string {
    if s != [] && IsSpace(s[0]) then StripLeft(s[1..]) else s
  }

  function StripRight(s: string): string {
    if s != [] && IsSpace(s[|s| - 1]) then StripRight(s[..|s| - 1]) else s
  }

  function Strip(s: string): string {
    StripRight(StripLeft(s))
  }

  /** The pieces of `s` between separators. */
  function SplitBy(s: string, sep: char -> bool): (parts: seq<string>)
    ensures parts != []
  {
    if s == "" then [""]
    else
      var rest := SplitBy(s[1..], sep);
      if sep(s[0]) then [""] + rest else [[s[0]] + rest[0]] + rest[1..]
  }

  /** The pieces that are not empty once stripped. */
  function NonBlank(parts: seq<string>): seq<string> {
    if parts == [] then []
    else if Strip(parts[0]) == "" then NonBlank(parts[1..])
    else [Strip(parts[0])] + NonBlank(parts[1..])
  }

  /** Around a separator, both sides are split by themselves. */
  lemma {:induction false} SplitAround(s: string, c: char, t: string, sep: char -> bool)
    requires sep(c)
    ensures SplitBy(s + [c] + t, sep) == SplitBy(s, sep) + SplitBy(t, sep)
  {
    var whole := s + [c] + t;
    if s == "" {
      assert whole[0] == c && whole[1..] == t;
    } else {
      SplitAround(s[1..], c, t, sep);
      assert whole[0] == s[0] && whole[1..] == s[1..] + [c] + t;
      PartsPrepend(s[0], SplitBy(s[1..], sep), SplitBy(t, sep));
    }
  }

  /** Putting a character in front of split parts does not look at the later ones. */
  lemma {:induction false} PartsPrepend(c: char, parts: seq<string>, more: seq<string>)
    requires parts != []
    ensures [""] + (parts + more) == ([""] + parts) + more
    ensures [[c] + (parts + more)[0]] + (parts + more)[1..] == ([[c] + parts[0]] + parts[1..]) + more
  {
  }

  lemma {:induction false} SplitWord(s: string, sep: char -> bool)
    requires forall i :: 0 <= i < |s| ==> !sep(s[i])
    ensures SplitBy(s, sep) == [s]
  {
    if s != "" {
      SplitWord(s[1..], sep);
      assert [s[0]] + s[1..] == s;
    }
  }

  /** A stripped string is already stripped, so an extracted id addresses the row its caller will ask for. */
  lemma {:induction false} StripTwice(s: string)
    ensures Strip(Strip(s)) == Strip(s)
  {
    RightKeepsFront(StripLeft(s));
    LeftStops(s);
    RightStops(StripLeft(s));
  }

  /** The characters trimmed: tab to carriage return, the four separators from 28 on, and the blank. */
  predicate Blank(c: char) {
    c as int in {9, 10, 11, 12, 13, 28, 29, 30, 31, 32}
  }

  /** What is left of `s` without the blanks at its ends. */
  ghost predicate Trimmed(s: string, t: string) {
    exists from, to :: 0 <= from <= to <= |s| && t == s[from..to]
                       && (forall i :: 0 <= i < from || to <= i < |s| ==> Blank(s[i]))
                       && (from < to ==> !Blank(s[from]) && !Blank(s[to - 1]))
  }

  lemma {:induction false} StripMeans(s: string)
    ensures Trimmed(s, Strip(s))
  {
    var from := LeftCut(s);
    var left := s[from..];
    var n := RightCut(left);
    LeftStops(s);
    RightStops(left);
    TrimmedAt(s, from, n);
  }

  lemma {:induction false} TrimmedAt(s: string, from: nat, n: nat)
    requires from + n <= |s|
    requires forall i :: 0 <= i < from ==> Blank(s[i])
    requires forall i :: n <= i < |s[from..]| ==> Blank(s[from..][i])
    requires n > 0 ==> !Blank(s[from]) && !Blank(s[from + n - 1])
    ensures Trimmed(s, s[from..][..n])
  {
    var to := from + n;
    forall i | to <= i < |s|
      ensures Blank(s[i])
    {
      assert s[from..][i - from] == s[i];
    }
    assert s[from..][..n] == s[from..to];
  }

  lemma {:induction false} LeftCut(s: string) returns (n: nat)
    ensures n <= |s| && StripLeft(s) == s[n..]
    ensures forall i :: 0 <= i < n ==> Blank(s[i])
  {
    n := 0;
    if s != [] && IsSpace(s[0]) {
      var m := LeftCut(s[1..]);
      n := m + 1;
      assert forall i :: 0 < i < n ==> s[i] == s[1..][i - 1];
    }
  }

  lemma {:induction false} RightCut(s: string) returns (n: nat)
    ensures n <= |s| && StripRight(s) == s[..n]
    ensures forall i :: n <= i < |s| ==> Blank(s[i])
  {
    n := |s|;
    if s != [] && IsSpace(s[|s| - 1]) {
      n := RightCut(s[..|s| - 1]);
      assert forall i :: n <= i < |s| - 1 ==> s[i] == s[..|s| - 1][i];
    }
  }

  lemma {:induction false} LeftStops(s: string)
    ensures StripLeft(s) == "" || !IsSpace(StripLeft(s)[0])
  {
    if s != [] && IsSpace(s[0]) {
      LeftStops(s[1..]);
    }
  }

  lemma {:induction false} RightStops(s: string)
    ensures StripRight(s) == "" || !IsSpace(StripRight(s)[|StripRight(s)| - 1])
  {
    if s != [] && IsSpace(s[|s| - 1]) {
      RightStops(s[..|s| - 1]);
    }
  }

  lemma {:induction false} RightKeepsFront(s: string)
    ensures StripRight(s) <= s
  {
    if s != [] && IsSpace(s[|s| - 1]) {
      RightKeepsFront(s[..|s| - 1]);
    }
  }
}

/** What several modules say of sequences and texts. */
module Sequences {
  predicate Distinct<T(==)>(s: seq<T>) {
    forall i, j | 0 <= i < j < |s| :: s[i] != s[j]
  }

  function Elements<T>(s: seq<T>): set<T> {
    set x | x in s
  }

  function Flatten<T>(parts: seq<seq<T>>): seq<T> {
    if parts == [] then [] else Flatten(parts[..|parts| - 1]) + parts[|parts| - 1]
  }

  lemma Regroup<T>(a: seq<T>, b: seq<T>, c: seq<T>)
    ensures a + (b + c) == a + b + c
  {
  }

  /** The white space among octets. */
  predicate IsSpace(c: char) {
    c == ' ' || '\t' <= c <= '\r'
  }

  /** The blank, the tab, the line feed, the vertical tab, the form feed and the carriage return. */
  lemma SpacesAre(c: char)
    ensures IsSpace(c) <==> c == ' ' || c == '\U{9}' || c == '\U{A}' || c == '\U{B}' || c == '\U{C}' || c == '\U{D}'
  {
  }

  function TrimStart(s: string): string {
    if s != "" && IsSpace(s[0]) then TrimStart(s[1..]) else s
  }

  function TrimEnd(s: string): string {
    if s != "" && IsSpace(s[|s| - 1]) then TrimEnd(s[..|s| - 1]) else s
  }

  function Trim(s: string): string {
    TrimEnd(TrimStart(s))
  }

  predicate AllSpace(s: string) {
    forall c | c in s :: IsSpace(c)
  }

  /** White space at neither end. */
  predicate IsTrimmed(s: string) {
    s == "" || (!IsSpace(s[0]) && !IsSpace(s[|s| - 1]))
  }

  lemma {:induction false} TrimStartMeans(s: string) returns (lo: nat)
    ensures lo <= |s| && TrimStart(s) == s[lo..] && AllSpace(s[..lo]) && (lo < |s| ==> !IsSpace(s[lo]))
  {
    if s != "" && IsSpace(s[0]) {
      var n := TrimStartMeans(s[1..]);
      lo := n + 1;
      assert s[..lo] == [s[0]] + s[1..][..n] && s[1..][n..] == s[lo..];
    } else {
      lo := 0;
      assert s[0..] == s;
    }
  }

  lemma {:induction false} TrimEndMeans(s: string) returns (hi: nat)
    ensures hi <= |s| && TrimEnd(s) == s[..hi] && AllSpace(s[hi..]) && (hi > 0 ==> !IsSpace(s[hi - 1]))
  {
    if s != "" && IsSpace(s[|s| - 1]) {
      var front := s[..|s| - 1];
      hi := TrimEndMeans(front);
      assert s[hi..] == front[hi..] + [s[|s| - 1]] && front[..hi] == s[..hi];
    } else {
      hi := |s|;
      assert s[..|s|] == s;
    }
  }

  /** What a trim leaves, and what it takes away: white space at both ends, all of it. */
  lemma TrimMeans(s: string) returns (lo: nat, hi: nat)
    ensures lo <= hi <= |s| && Trim(s) == s[lo..hi]
    ensures AllSpace(s[..lo]) && AllSpace(s[hi..]) && IsTrimmed(Trim(s))
  {
    lo := TrimStartMeans(s);
    var rest := s[lo..];
    var n := TrimEndMeans(rest);
    hi := lo + n;
    assert rest[..n] == s[lo..hi] && rest[n..] == s[hi..];
    if n > 0 {
      assert rest[..n][0] == s[lo] && rest[..n][n - 1] == rest[n - 1];
    }
  }
}

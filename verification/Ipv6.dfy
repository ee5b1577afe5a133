/**
 * The IPv6 text parser behind the webhook address check, and the IPv4 address an IPv6 one can carry.
 * The text has no brackets and is in lower case already.
 */
module Ipv6 {
  import opened Digits
  import opened Sequences
  import opened Wrappers

  /** The pieces between the separators; one more than there are separators. */
  function Split(s: string, sep: char): (r: seq<string>)
    ensures r != []
  {
    if s == "" then [""]
    else
      var rest := Split(s[1..], sep);
      if s[0] == sep then [""] + rest else [[s[0]] + rest[0]] + rest[1..]
  }

  /** The pieces between `::`, taken from the left. */
  function SplitDouble(s: string): (r: seq<string>)
    ensures r != []
    decreases |s|
  {
    if s == "" then [""]
    else if |s| > 1 && s[0] == ':' && s[1] == ':' then [""] + SplitDouble(s[2..])
    else
      var rest := SplitDouble(s[1..]);
      [[s[0]] + rest[0]] + rest[1..]
  }

  function Join(parts: seq<string>, sep: char): string {
    if parts == [] then "" else if |parts| == 1 then parts[0] else parts[0] + [sep] + Join(parts[1..], sep)
  }

  predicate IsGroup(s: string) {
    1 <= |s| <= 4 && AllDigits(s, 16)
  }

  function Values(groups: seq<string>): (r: seq<nat>)
    ensures |r| == |groups|
  {
    seq(|groups|, i requires 0 <= i < |groups| => ValueOf(groups[i], 16))
  }

  function ParseSide(side: string): Option<seq<nat>> {
    if side == "" then Some([])
    else
      var parts := Split(side, ':');
      if forall k | 0 <= k < |parts| :: IsGroup(parts[k]) then Some(Values(parts)) else None
  }

  function ParseGroups(text: string): Option<seq<nat>> {
    var sides := SplitDouble(text);
    if |sides| > 2 then None
    else match ParseSide(sides[0])
      case None => None
      case Some(left) =>
        if |sides| == 1 then (if |left| == 8 then Some(left) else None)
        else match ParseSide(sides[1])
          case None => None
          case Some(right) =>
            if |left| + |right| >= 8 then None else Some(left + Zeros(8 - |left| - |right|) + right)
  }

  function Zeros(n: nat): seq<nat> {
    seq(n, _ => 0)
  }

  predicate IsOctetText(s: string) {
    1 <= |s| <= 3 && AllDigits(s, 10)
  }

  function LastColon(s: string): (at: Option<nat>)
    ensures at.Some? ==> at.value < |s| && s[at.value] == ':' && ':' !in s[at.value + 1..]
    ensures at.None? ==> ':' !in s
  {
    if s == "" then None
    else if s[|s| - 1] == ':' then Some(|s| - 1)
    else
      var at := LastColon(s[..|s| - 1]);
      assert s == s[..|s| - 1] + [s[|s| - 1]];
      assert at.Some? ==> s[at.value + 1..] == s[..|s| - 1][at.value + 1..] + [s[|s| - 1]];
      at
  }

  function Octets(tail: seq<string>): seq<nat>
    requires |tail| == 4
  {
    seq(4, i requires 0 <= i < 4 => ValueOf(tail[i], 10))
  }

  function TwoGroups(octets: seq<nat>): string
    requires |octets| == 4
  {
    Numeral(octets[0] * 256 + octets[1], 16) + ":" + Numeral(octets[2] * 256 + octets[3], 16)
  }

  predicate AreOctetTexts(parts: seq<string>) {
    |parts| == 4 && forall k | 0 <= k < 4 :: IsOctetText(parts[k])
  }

  /** The text with a dotted tail rewritten as two groups; None when an octet is over 255. */
  function Undotted(host: string): Option<string> {
    var at := LastColon(host);
    if at.None? then Some(host) else UndottedAfter(host, at.value + 1)
  }

  function UndottedAfter(host: string, start: nat): Option<string>
    requires start <= |host|
  {
    var parts := Split(host[start..], '.');
    if !AreOctetTexts(parts) then Some(host)
    else if exists k | 0 <= k < 4 :: Octets(parts)[k] > 255 then None
    else Some(host[..start] + TwoGroups(Octets(parts)))
  }

  function ParseIpv6Hextets(host: string): Option<seq<nat>> {
    match Undotted(host)
    case None => None
    case Some(text) => ParseGroups(text)
  }

  // ------------------------------------------------------------------ splitting and joining

  predicate NoneHolds(parts: seq<string>, c: char) {
    forall k | 0 <= k < |parts| :: c !in parts[k]
  }

  lemma {:induction false} SplitOne(s: string, sep: char)
    requires sep !in s
    ensures Split(s, sep) == [s]
  {
    if s != "" {
      assert s == [s[0]] + s[1..];
      SplitOne(s[1..], sep);
    }
  }

  lemma {:induction false} SplitFirst(s: string, sep: char, rest: string)
    requires sep !in s
    ensures Split(s + [sep] + rest, sep) == [s] + Split(rest, sep)
  {
    var whole := s + [sep] + rest;
    if s != "" {
      assert s == [s[0]] + s[1..];
      assert whole[1..] == s[1..] + [sep] + rest && whole[0] == s[0];
      SplitFirst(s[1..], sep, rest);
      assert ([s[1..]] + Split(rest, sep))[1..] == Split(rest, sep);
    } else {
      assert whole == [sep] + rest;
      assert whole[1..] == rest;
    }
  }

  lemma {:induction false} SplitUndoesJoin(parts: seq<string>, sep: char)
    requires parts != [] && NoneHolds(parts, sep)
    ensures Split(Join(parts, sep), sep) == parts
    decreases |parts|
  {
    if |parts| == 1 {
      SplitOne(parts[0], sep);
    } else {
      SplitUndoesJoin(parts[1..], sep);
      SplitFirst(parts[0], sep, Join(parts[1..], sep));
    }
  }

  lemma JoinFront(front: string, rest: seq<string>, sep: char)
    requires rest != []
    ensures Join([front + rest[0]] + rest[1..], sep) == front + Join(rest, sep)
    ensures Join([front] + rest, sep) == front + [sep] + Join(rest, sep)
  {
    assert ([front + rest[0]] + rest[1..])[1..] == rest[1..] && ([front] + rest)[1..] == rest;
    if |rest| > 1 {
      Regroup(front, rest[0] + [sep], Join(rest[1..], sep));
      Regroup(front, rest[0], [sep]);
    }
  }

  lemma {:induction false} JoinUndoesSplit(s: string, sep: char)
    ensures Join(Split(s, sep), sep) == s && NoneHolds(Split(s, sep), sep)
  {
    if s != "" {
      var rest := Split(s[1..], sep);
      JoinUndoesSplit(s[1..], sep);
      assert s == [s[0]] + s[1..];
      if s[0] == sep {
        JoinFront("", rest, sep);
      } else {
        JoinFront([s[0]], rest, sep);
      }
    }
  }

  /** No two colons side by side, and none at the end. */
  predicate NoDouble(s: string) {
    forall k | 0 <= k < |s| - 1 && s[k] == ':' :: s[k + 1] != ':'
  }

  predicate EndsClear(s: string) {
    s != "" ==> s[|s| - 1] != ':'
  }

  lemma {:induction false} SplitDoubleOne(s: string)
    requires NoDouble(s)
    ensures SplitDouble(s) == [s]
  {
    if s != "" {
      assert s == [s[0]] + s[1..];
      assert NoDouble(s[1..]);
      SplitDoubleOne(s[1..]);
    }
  }

  lemma {:induction false} SplitDoubleFirst(s: string, rest: string)
    requires NoDouble(s) && EndsClear(s)
    ensures SplitDouble(s + "::" + rest) == [s] + SplitDouble(rest)
    decreases |s|
  {
    var whole := s + "::" + rest;
    if s != "" {
      assert whole[1..] == s[1..] + "::" + rest && whole[0] == s[0];
      assert |s| > 1 ==> whole[1] == s[1];
      SplitDoubleFirst(s[1..], rest);
      assert s == [s[0]] + s[1..];
      assert ([s[1..]] + SplitDouble(rest))[1..] == SplitDouble(rest);
    } else {
      assert whole == "::" + rest;
      assert whole[2..] == rest;
    }
  }

  // ------------------------------------------------------------------ printing

  /** Group texts: any of the one to four digits a group may be written with. */
  predicate AreGroups(groups: seq<string>) {
    forall k | 0 <= k < |groups| :: IsGroup(groups[k])
  }

  /** A dotted tail: none, or four octets. */
  predicate IsTail(tail: seq<string>) {
    tail == [] || (|tail| == 4 && forall k | 0 <= k < 4 :: IsOctetText(tail[k]) && ValueOf(tail[k], 10) <= 255)
  }

  /**
   * The forms of section 2.2 of RFC 4291: all groups written, or `::` for a run of zeros; either with a
   * dotted tail for the last two.
   */
  datatype Form =
    | Full(groups: seq<string>, tail: seq<string>)
    | Short(left: seq<string>, right: seq<string>, tail: seq<string>)

  predicate Legal(f: Form) {
    IsTail(f.tail) &&
    match f
    case Full(groups, tail) => AreGroups(groups) && |groups| + |TailWords(tail)| == 8
    case Short(left, right, tail) => AreGroups(left) && AreGroups(right) && |left| + |right| + |TailWords(tail)| < 8
  }

  function TailWords(tail: seq<string>): seq<nat>
    requires IsTail(tail)
  {
    if tail == [] then []
    else [ValueOf(tail[0], 10) * 256 + ValueOf(tail[1], 10), ValueOf(tail[2], 10) * 256 + ValueOf(tail[3], 10)]
  }

  function WithTail(groups: seq<string>, tail: seq<string>): seq<string> {
    if tail == [] then groups else groups + [Join(tail, '.')]
  }

  function Print(f: Form): string {
    match f
    case Full(groups, tail) => Join(WithTail(groups, tail), ':')
    case Short(left, right, tail) => Join(left, ':') + "::" + Join(WithTail(right, tail), ':')
  }

  function Words(f: Form): seq<nat>
    requires Legal(f)
  {
    match f
    case Full(groups, tail) => Values(groups) + TailWords(tail)
    case Short(left, right, tail) =>
      Values(left) + Zeros(8 - |left| - |right| - |TailWords(tail)|) + Values(right) + TailWords(tail)
  }

  lemma {:induction false} JoinIsClear(groups: seq<string>)
    requires AreGroups(groups)
    ensures var s := Join(groups, ':');
            NoDouble(s) && EndsClear(s) && (s == "" <==> groups == []) && (s != "" ==> s[0] != ':')
    ensures '.' !in Join(groups, ':')
    decreases |groups|
  {
    if groups != [] {
      var first := groups[0];
      assert IsGroup(first);
      assert forall k | 0 <= k < |first| :: first[k] != ':' && first[k] != '.';
      if |groups| > 1 {
        JoinIsClear(groups[1..]);
        var rest := Join(groups[1..], ':');
        ClearAround(first, rest);
      }
    }
  }

  lemma ClearAround(first: string, rest: string)
    requires first != "" && rest != "" && ':' !in first && NoDouble(rest) && EndsClear(rest) && rest[0] != ':'
    ensures NoDouble(first + ":" + rest) && EndsClear(first + ":" + rest)
  {
    var s := first + ":" + rest;
    assert forall k | 0 <= k < |first| :: s[k] == first[k] != ':';
    assert forall k | |first| < k < |s| :: s[k] == rest[k - |first| - 1];
  }

  lemma SideReads(groups: seq<string>)
    requires AreGroups(groups)
    ensures ParseSide(Join(groups, ':')) == Some(Values(groups))
  {
    JoinIsClear(groups);
    if groups != [] {
      forall k | 0 <= k < |groups| ensures ':' !in groups[k] {
        assert IsGroup(groups[k]);
      }
      SplitUndoesJoin(groups, ':');
    }
  }

  lemma FullReads(groups: seq<string>)
    requires AreGroups(groups) && |groups| == 8
    ensures ParseGroups(Join(groups, ':')) == Some(Values(groups)) && '.' !in Join(groups, ':')
  {
    JoinIsClear(groups);
    SideReads(groups);
    SplitDoubleOne(Join(groups, ':'));
  }

  lemma TwoSides(l: string, r: string, left: seq<nat>, right: seq<nat>, n: nat)
    requires NoDouble(l) && EndsClear(l) && NoDouble(r)
    requires ParseSide(l) == Some(left) && ParseSide(r) == Some(right) && |left| + |right| + n == 8 && n > 0
    ensures ParseGroups(l + "::" + r) == Some(left + Zeros(n) + right)
  {
    SplitDoubleFirst(l, r);
    SplitDoubleOne(r);
    assert SplitDouble(l + "::" + r) == [l, r];
  }

  lemma ShortReads(left: seq<string>, right: seq<string>, n: nat)
    requires AreGroups(left) && AreGroups(right) && |left| + |right| + n == 8 && n > 0
    ensures ParseGroups(Join(left, ':') + "::" + Join(right, ':')) == Some(Values(left) + Zeros(n) + Values(right))
    ensures '.' !in Join(left, ':') + "::" + Join(right, ':')
  {
    JoinIsClear(left);
    JoinIsClear(right);
    SideReads(left);
    SideReads(right);
    TwoSides(Join(left, ':'), Join(right, ':'), Values(left), Values(right), n);
  }

  lemma PlainReads(f: Form)
    requires Legal(f) && f.tail == []
    ensures ParseGroups(Print(f)) == Some(Words(f)) && '.' !in Print(f)
  {
    match f
    case Full(groups, tail) =>
      FullReads(groups);
      assert Values(groups) + [] == Values(groups);
    case Short(left, right, tail) =>
      ShortReads(left, right, 8 - |left| - |right|);
      assert Words(f) == Values(left) + Zeros(8 - |left| - |right|) + Values(right);
  }

  lemma NoDotsNoTail(host: string)
    requires '.' !in host
    ensures Undotted(host) == Some(host)
  {
    var at := LastColon(host);
    if at.Some? {
      SplitOne(host[at.value + 1..], '.');
    }
  }

  lemma {:induction false} JoinAppend(parts: seq<string>, last: string, sep: char)
    requires parts != []
    ensures Join(parts + [last], sep) == Join(parts, sep) + [sep] + last
    decreases |parts|
  {
    if |parts| > 1 {
      JoinAppend(parts[1..], last, sep);
      assert (parts + [last])[1..] == parts[1..] + [last];
    } else {
      assert (parts + [last])[1..] == [last];
    }
  }

  /** What stands before the last piece. */
  function Head(f: Form): string {
    match f
    case Full(groups, tail) => Join(groups, ':') + ":"
    case Short(left, right, tail) => Join(left, ':') + "::" + (if right == [] then "" else Join(right, ':') + ":")
  }

  /** The same form with its tail written as two groups. */
  function AsGroups(f: Form): Form
    requires IsTail(f.tail) && f.tail != []
  {
    var words := TailWords(f.tail);
    var groups := [Numeral(words[0], 16), Numeral(words[1], 16)];
    match f
    case Full(gs, tail) => Full(gs + groups, [])
    case Short(left, right, tail) => Short(left, right + groups, [])
  }

  lemma WordIsGroup(word: nat)
    requires word < 65536
    ensures IsGroup(Numeral(word, 16)) && ValueOf(Numeral(word, 16), 16) == word
  {
    NumeralReads(word, 16);
    assert Power(16, 0) == 1 && Power(16, 1) == 16 && Power(16, 2) == 256 && Power(16, 3) == 4096
           && Power(16, 4) == 65536;
    NumeralFits(word, 16, 4);
  }

  lemma AsGroupsIsTheSame(f: Form)
    requires Legal(f) && f.tail != []
    ensures Legal(AsGroups(f)) && Words(AsGroups(f)) == Words(f)
  {
    var words := TailWords(f.tail);
    WordIsGroup(words[0]);
    WordIsGroup(words[1]);
    match f
    case Full(groups, tail) =>
      TwoMoreValues(groups, words[0], words[1]);
      assert Values(groups) + words + [] == Values(groups) + words;
    case Short(left, right, tail) =>
      TwoMoreValues(right, words[0], words[1]);
      assert Zeros(8 - |left| - |right| - 2) == Zeros(8 - |left| - (|right| + 2) - 0);
  }

  lemma TwoMoreValues(groups: seq<string>, a: nat, b: nat)
    requires a < 65536 && b < 65536
    ensures Values(groups + [Numeral(a, 16), Numeral(b, 16)]) == Values(groups) + [a, b]
  {
    WordIsGroup(a);
    WordIsGroup(b);
  }

  lemma JoinTwoMore(groups: seq<string>, a: string, b: string)
    ensures Join(groups + [a, b], ':') == if groups == [] then a + ":" + b else Join(groups, ':') + ":" + (a + ":" + b)
  {
    if groups == [] {
      assert [] + [a, b] == [a, b] && [a, b][1..] == [b];
    } else {
      JoinAppend(groups, a, ':');
      JoinAppend(groups + [a], b, ':');
      assert groups + [a, b] == groups + [a] + [b];
      assert Join(groups, ':') + [':'] + a + [':'] + b == Join(groups, ':') + ":" + (a + ":" + b);
    }
  }

  lemma PrintsAfterHead(f: Form)
    requires f.tail != [] && (f.Full? ==> f.groups != [])
    ensures Print(f) == Head(f) + Join(f.tail, '.')
  {
    match f
    case Full(groups, tail) => JoinAppend(groups, Join(tail, '.'), ':');
    case Short(left, right, tail) => RightAfterHead(Join(left, ':'), right, Join(tail, '.'));
  }

  lemma GroupsPrintAfterHead(f: Form)
    requires f.tail != [] && IsTail(f.tail) && (f.Full? ==> f.groups != [])
    ensures Print(AsGroups(f)) == Head(f) + TwoGroups(Octets(f.tail))
  {
    var words := TailWords(f.tail);
    var a, b := Numeral(words[0], 16), Numeral(words[1], 16);
    match f
    case Full(groups, tail) => JoinTwoMore(groups, a, b);
    case Short(left, right, tail) =>
      JoinTwoMore(right, a, b);
      RightAfterHead(Join(left, ':'), right, a + ":" + b);
  }

  lemma RightAfterHead(left: string, right: seq<string>, last: string)
    ensures left + "::" + (if right == [] then last else Join(right, ':') + ":" + last)
            == left + "::" + (if right == [] then "" else Join(right, ':') + ":") + last
    ensures Join(right + [last], ':') == if right == [] then last else Join(right, ':') + ":" + last
  {
    if right != [] {
      JoinAppend(right, last, ':');
      Regroup(left + "::", Join(right, ':') + ":", last);
    } else {
      assert right + [last] == [last];
    }
  }

  lemma {:induction false} LastColonAt(head: string, last: string)
    requires head != "" && head[|head| - 1] == ':' && ':' !in last
    ensures LastColon(head + last) == Some(|head| - 1) && (head + last)[|head|..] == last
            && (head + last)[..|head|] == head
    decreases |last|
  {
    if last != "" {
      assert (head + last)[..|head + last| - 1] == head + last[..|last| - 1];
      LastColonAt(head, last[..|last| - 1]);
    }
  }

  lemma TailSplits(tail: seq<string>)
    requires IsTail(tail) && tail != []
    ensures Split(Join(tail, '.'), '.') == tail && ':' !in Join(tail, '.')
  {
    forall k | 0 <= k < 4 ensures '.' !in tail[k] && ':' !in tail[k] {
      assert IsOctetText(tail[k]);
    }
    SplitUndoesJoin(tail, '.');
    NoColonInJoin(tail);
  }

  lemma {:induction false} NoColonInJoin(parts: seq<string>)
    requires NoneHolds(parts, ':')
    ensures ':' !in Join(parts, '.')
    decreases |parts|
  {
    if |parts| > 1 {
      NoColonInJoin(parts[1..]);
    }
  }

  lemma TailIsRewritten(head: string, tail: seq<string>)
    requires IsTail(tail) && tail != [] && head != "" && head[|head| - 1] == ':'
    ensures Undotted(head + Join(tail, '.')) == Some(head + TwoGroups(Octets(tail)))
  {
    TailSplits(tail);
    LastColonAt(head, Join(tail, '.'));
  }

  /** Parsing undoes printing, in every legal form. */
  lemma ParsingUndoesPrinting(f: Form)
    requires Legal(f)
    ensures ParseIpv6Hextets(Print(f)) == Some(Words(f))
  {
    if f.tail == [] {
      PlainReads(f);
      NoDotsNoTail(Print(f));
    } else {
      AsGroupsIsTheSame(f);
      PrintsAfterHead(f);
      GroupsPrintAfterHead(f);
      TailIsRewritten(Head(f), f.tail);
      PlainReads(AsGroups(f));
    }
  }

  // ------------------------------------------------------------------ every accepted text is a printed form

  function SideGroups(side: string): seq<string> {
    if side == "" then [] else Split(side, ':')
  }

  lemma SideIsJoined(side: string)
    requires ParseSide(side).Some?
    ensures var groups := SideGroups(side);
            AreGroups(groups) && Join(groups, ':') == side && ParseSide(side) == Some(Values(groups))
  {
    JoinUndoesSplit(side, ':');
    if side == "" {
      assert Values([]) == [];
    }
  }

  function JoinDouble(parts: seq<string>): string {
    if parts == [] then "" else if |parts| == 1 then parts[0] else parts[0] + "::" + JoinDouble(parts[1..])
  }

  lemma AcrossDouble(a: string, b: string, rest: string)
    ensures (a + b) + "::" + rest == a + (b + "::" + rest)
  {
  }

  lemma JoinDoubleFront(front: string, rest: seq<string>)
    requires rest != []
    ensures JoinDouble([front + rest[0]] + rest[1..]) == front + JoinDouble(rest)
  {
    var parts := [front + rest[0]] + rest[1..];
    assert |parts| == |rest| && parts[0] == front + rest[0] && parts[1..] == rest[1..];
    if |rest| > 1 {
      AcrossDouble(front, rest[0], JoinDouble(rest[1..]));
    }
  }

  lemma JoinDoubleEmpty(rest: seq<string>)
    requires rest != []
    ensures JoinDouble([""] + rest) == "::" + JoinDouble(rest)
  {
    var parts := [""] + rest;
    assert parts[0] == "" && parts[1..] == rest;
    assert JoinDouble(parts) == "" + "::" + JoinDouble(rest);
  }

  lemma {:induction false} JoinUndoesSplitDouble(s: string)
    ensures JoinDouble(SplitDouble(s)) == s
    decreases |s|
  {
    if s != "" {
      if |s| > 1 && s[0] == ':' && s[1] == ':' {
        JoinUndoesSplitDouble(s[2..]);
        JoinDoubleEmpty(SplitDouble(s[2..]));
        assert s == "::" + s[2..];
      } else {
        JoinUndoesSplitDouble(s[1..]);
        JoinDoubleFront([s[0]], SplitDouble(s[1..]));
        assert s == [s[0]] + s[1..];
      }
    }
  }

  lemma ShortIsPrinted(text: string, l: string, r: string) returns (f: Form)
    requires SplitDouble(text) == [l, r] && ParseGroups(text).Some?
    ensures Legal(f) && f.tail == [] && Print(f) == text && Some(Words(f)) == ParseGroups(text)
  {
    JoinUndoesSplitDouble(text);
    assert [l, r][1..] == [r];
    SideIsJoined(l);
    SideIsJoined(r);
    var left, right := SideGroups(l), SideGroups(r);
    f := Short(left, right, []);
    var n := 8 - |left| - |right|;
    ShortWords(left, right, n);
    TwoSidesParse(text, l, r, Values(left), Values(right), n);
  }

  lemma ShortWords(left: seq<string>, right: seq<string>, n: nat)
    requires AreGroups(left) && AreGroups(right) && |left| + |right| + n == 8 && n > 0
    ensures Words(Short(left, right, [])) == Values(left) + Zeros(n) + Values(right)
  {
  }

  lemma TwoSidesParse(text: string, l: string, r: string, left: seq<nat>, right: seq<nat>, n: nat)
    requires SplitDouble(text) == [l, r] && ParseSide(l) == Some(left) && ParseSide(r) == Some(right)
             && |left| + |right| + n == 8 && n > 0
    ensures ParseGroups(text) == Some(left + Zeros(n) + right)
  {
  }

  lemma PlainIsPrinted(text: string) returns (f: Form)
    requires ParseGroups(text).Some?
    ensures Legal(f) && f.tail == [] && Print(f) == text && Some(Words(f)) == ParseGroups(text)
  {
    var sides := SplitDouble(text);
    if |sides| == 1 {
      JoinUndoesSplitDouble(text);
      SideIsJoined(sides[0]);
      var groups := SideGroups(sides[0]);
      f := Full(groups, []);
      assert Values(groups) + [] == Values(groups);
    } else {
      assert sides == [sides[0], sides[1]];
      f := ShortIsPrinted(text, sides[0], sides[1]);
    }
  }

  lemma LastPieceIsUnique(head: string, last: string, head': string, last': string)
    requires head + last == head' + last' && ':' !in last && ':' !in last'
    requires head != "" && head[|head| - 1] == ':' && head' != "" && head'[|head'| - 1] == ':'
    ensures head == head' && last == last'
  {
    LastColonAt(head, last);
    LastColonAt(head', last');
  }

  lemma Flat(p: string, x: string, y: string)
    ensures p + (x + ":" + y) == (p + x + ":") + y
  {
  }

  lemma LastTwoAreUnique(s: string, x: string, y: string, head: string, a: string, b: string)
    requires s + ":" + (x + ":" + y) == head + (a + ":" + b) && head != "" && head[|head| - 1] == ':'
    requires ':' !in x && ':' !in y && ':' !in a && ':' !in b
    ensures s + ":" == head && x == a && y == b
  {
    Flat(s + ":", x, y);
    Flat(head, a, b);
    LastPieceIsUnique(s + ":" + x + ":", y, head + a + ":", b);
    assert (s + ":" + x + ":")[..|s| + 1 + |x|] == s + ":" + x;
    assert (head + a + ":")[..|head| + |a|] == head + a;
    LastPieceIsUnique(s + ":", x, head, a);
  }

  predicate EndsWith(groups: seq<string>, a: string, b: string) {
    |groups| >= 2 && groups[|groups| - 2] == a && groups[|groups| - 1] == b
  }

  /** The last two groups of a text that ends in two groups are those, whichever form it is read as. */
  lemma FullEndsWith(groups: seq<string>, head: string, a: string, b: string)
    requires AreGroups(groups) && |groups| > 2 && IsGroup(a) && IsGroup(b) && head != "" && head[|head| - 1] == ':'
    requires Join(groups, ':') == head + (a + ":" + b)
    ensures EndsWith(groups, a, b)
  {
    var before, x, y := groups[..|groups| - 2], groups[|groups| - 2], groups[|groups| - 1];
    assert groups == before + [x, y] && IsGroup(x) && IsGroup(y);
    JoinTwoMore(before, x, y);
    LastTwoAreUnique(Join(before, ':'), x, y, head, a, b);
  }

  /** What a short form shows before its last two groups. */
  function ShortHead(left: string, before: seq<string>): string {
    left + ":" + (if before == [] then "" else ":" + Join(before, ':'))
  }

  lemma ShortHasTwo(left: string, right: seq<string>, head: string, a: string, b: string)
    requires AreGroups(right) && IsGroup(a) && IsGroup(b) && head != "" && head[|head| - 1] == ':'
    requires left + "::" + Join(right, ':') == head + (a + ":" + b)
    ensures |right| >= 2
  {
    if |right| < 2 {
      var last := Join(right, ':');
      assert |right| == 1 ==> IsGroup(right[0]);
      Flat(head, a, b);
      LastPieceIsUnique(left + "::", last, head + a + ":", b);
      SameHead(left + ":", head + a, ":");
      LastPieceIsUnique(left + ":", "", head, a);
    }
  }

  lemma ShortHeadThenTwo(left: string, before: seq<string>, x: string, y: string)
    ensures left + "::" + Join(before + [x, y], ':') == ShortHead(left, before) + ":" + (x + ":" + y)
  {
    JoinTwoMore(before, x, y);
    var two := x + ":" + y;
    if before == [] {
      assert left + "::" + two == left + ":" + ":" + two;
    } else {
      var mid := Join(before, ':');
      assert left + "::" + (mid + ":" + two) == left + ":" + (":" + mid) + ":" + two;
    }
  }

  lemma ShortEndsWith(left: string, right: seq<string>, head: string, a: string, b: string)
    requires AreGroups(right) && IsGroup(a) && IsGroup(b) && head != "" && head[|head| - 1] == ':'
    requires left + "::" + Join(right, ':') == head + (a + ":" + b)
    ensures EndsWith(right, a, b)
  {
    ShortHasTwo(left, right, head, a, b);
    var before, x, y := right[..|right| - 2], right[|right| - 2], right[|right| - 1];
    assert right == before + [x, y] && IsGroup(x) && IsGroup(y);
    ShortHeadThenTwo(left, before, x, y);
    LastTwoAreUnique(ShortHead(left, before), x, y, head, a, b);
  }

  /** A dotted tail in place of the last two groups. */
  function Dotted(g: Form, tail: seq<string>): Form {
    match g
    case Full(groups, _) => if |groups| < 2 then g else Full(groups[..|groups| - 2], tail)
    case Short(left, right, _) => if |right| < 2 then g else Short(left, right[..|right| - 2], tail)
  }

  lemma TailGoesBack(g: Form, tail: seq<string>, a: string, b: string)
    requires Legal(g) && g.tail == [] && IsTail(tail) && tail != []
    requires a == Numeral(TailWords(tail)[0], 16) && b == Numeral(TailWords(tail)[1], 16)
    requires EndsWith(if g.Full? then g.groups else g.right, a, b)
    ensures var f := Dotted(g, tail); Legal(f) && f.tail == tail && AsGroups(f) == g && (f.Full? ==> f.groups != [])
  {
    var groups := if g.Full? then g.groups else g.right;
    assert groups == groups[..|groups| - 2] + [a, b];
  }

  /** Reading the last two groups of a form back as a dotted tail. */
  lemma AsDotted(g: Form, head: string, tail: seq<string>) returns (f: Form)
    requires Legal(g) && g.tail == [] && IsTail(tail) && tail != [] && head != "" && head[|head| - 1] == ':'
    requires Print(g) == head + TwoGroups(Octets(tail))
    ensures Legal(f) && Print(f) == head + Join(tail, '.') && Words(f) == Words(g)
  {
    var words := TailWords(tail);
    var a, b := Numeral(words[0], 16), Numeral(words[1], 16);
    WordIsGroup(words[0]);
    WordIsGroup(words[1]);
    assert TwoGroups(Octets(tail)) == a + ":" + b;
    match g {
      case Full(groups, _) => FullEndsWith(groups, head, a, b);
      case Short(left, right, _) => ShortEndsWith(Join(left, ':'), right, head, a, b);
    }
    f := Dotted(g, tail);
    TailGoesBack(g, tail, a, b);
    PrintsAfterHead(f);
    GroupsPrintAfterHead(f);
    AsGroupsIsTheSame(f);
    SameHead(Head(f), head, TwoGroups(Octets(tail)));
  }

  lemma SameHead(a: string, b: string, rest: string)
    requires a + rest == b + rest
    ensures a == b
  {
    assert (a + rest)[..|a|] == a && (b + rest)[..|b|] == b;
  }

  lemma OctetsFit(tail: seq<string>)
    requires AreOctetTexts(tail) && !(exists k | 0 <= k < 4 :: Octets(tail)[k] > 255)
    ensures IsTail(tail)
  {
    assert forall k | 0 <= k < 4 :: Octets(tail)[k] == ValueOf(tail[k], 10);
  }

  /** How a text was rewritten: around a dotted tail, or not at all. */
  lemma RewrittenAround(host: string) returns (head: string, tail: seq<string>)
    requires Undotted(host).Some?
    ensures IsTail(tail) && (tail == [] ==> Undotted(host) == Some(host))
    ensures tail != [] ==> head != "" && head[|head| - 1] == ':' && host == head + Join(tail, '.')
                           && Undotted(host) == Some(head + TwoGroups(Octets(tail)))
  {
    var at := LastColon(host);
    head, tail := "", [];
    if at.Some? {
      var start := at.value + 1;
      var parts := Split(host[start..], '.');
      if AreOctetTexts(parts) {
        OctetsFit(parts);
        head, tail := host[..start], parts;
        JoinUndoesSplit(host[start..], '.');
      }
    }
  }

  lemma AcceptedIsPrinted(host: string) returns (f: Form)
    requires ParseIpv6Hextets(host).Some?
    ensures Legal(f) && Print(f) == host && Some(Words(f)) == ParseIpv6Hextets(host)
  {
    var head, tail := RewrittenAround(host);
    f := PlainIsPrinted(Undotted(host).value);
    if tail != [] {
      f := AsDotted(f, head, tail);
    }
  }

  /** The parser accepts exactly the legal forms, and reads each as the words it writes. */
  lemma AcceptsExactlyTheForms(host: string, words: seq<nat>)
    ensures ParseIpv6Hextets(host) == Some(words) <==> exists f :: Legal(f) && Print(f) == host && Words(f) == words
  {
    if ParseIpv6Hextets(host) == Some(words) {
      var f := AcceptedIsPrinted(host);
    }
    if f :| Legal(f) && Print(f) == host && Words(f) == words {
      ParsingUndoesPrinting(f);
    }
  }

  lemma EightWords(host: string)
    requires ParseIpv6Hextets(host).Some?
    ensures var words := ParseIpv6Hextets(host).value; |words| == 8 && forall k | 0 <= k < 8 :: words[k] < 65536
  {
    var f := AcceptedIsPrinted(host);
    WordsFit(f);
  }

  lemma WordsFit(f: Form)
    requires Legal(f)
    ensures |Words(f)| == 8 && forall k | 0 <= k < 8 :: Words(f)[k] < 65536
  {
    match f
    case Full(groups, tail) => GroupsFit(groups);
    case Short(left, right, tail) =>
      GroupsFit(left);
      GroupsFit(right);
  }

  lemma GroupsFit(groups: seq<string>)
    requires AreGroups(groups)
    ensures forall k | 0 <= k < |groups| :: Values(groups)[k] < 65536
  {
    assert Power(16, 0) == 1 && Power(16, 1) == 16 && Power(16, 2) == 256 && Power(16, 3) == 4096
           && Power(16, 4) == 65536;
    forall k | 0 <= k < |groups| ensures ValueOf(groups[k], 16) < 65536 {
      assert IsGroup(groups[k]);
      ValueFits(groups[k], 16);
    }
  }

  // ------------------------------------------------------------------ the IPv4 address inside

  /** The four octets of two groups, in decimal. */
  function Quad(high: nat, low: nat): (q: seq<string>)
    ensures |q| == 4
  {
    [Numeral(high / 256, 10), Numeral(high % 256, 10), Numeral(low / 256, 10), Numeral(low % 256, 10)]
  }

  function Ipv4FromHextets(high: nat, low: nat): string {
    Join(Quad(high, low), '.')
  }

  /** The address a webhook's host is judged by when it is an IPv6 one that carries an IPv4 one. */
  function EmbeddedIpv4(host: string): Option<string> {
    match ParseIpv6Hextets(host)
    case None => None
    case Some(w) => if |w| == 8 then Carried(w) else None
  }

  function Carried(w: seq<nat>): Option<string>
    requires |w| == 8
  {
    if w[0] == 0 && w[1] == 0 && w[2] == 0 && w[3] == 0 && w[4] == 0 && (w[5] == 0xffff || w[5] == 0)
    then Some(Ipv4FromHextets(w[6], w[7]))
    else if w[0] == 0x64 && w[1] == 0xff9b && w[2] == 0 && w[3] == 0 && w[4] == 0 && w[5] == 0
    then Some(Ipv4FromHextets(w[6], w[7]))
    else if w[0] == 0x2002 then Some(Ipv4FromHextets(w[1], w[2]))
    else None
  }

  const MAPPED: seq<nat> := [0, 0, 0, 0, 0, 0xffff]
  const COMPATIBLE: seq<nat> := [0, 0, 0, 0, 0, 0]
  const NAT64: seq<nat> := [0x64, 0xff9b, 0, 0, 0, 0]
  const SIX_TO_FOUR: seq<nat> := [0x2002]

  /** The two groups stand right after one of the prefixes. */
  predicate Carries(w: seq<nat>, high: nat, low: nat) {
    || After(w, MAPPED, high, low) || After(w, COMPATIBLE, high, low)
    || After(w, NAT64, high, low) || After(w, SIX_TO_FOUR, high, low)
  }

  predicate After(w: seq<nat>, prefix: seq<nat>, high: nat, low: nat) {
    prefix <= w && |prefix| + 2 <= |w| && w[|prefix|] == high && w[|prefix| + 1] == low
  }

  lemma OctetIsText(n: nat)
    requires n <= 255
    ensures IsOctetText(Numeral(n, 10)) && ValueOf(Numeral(n, 10), 10) == n
  {
    NumeralReads(n, 10);
    assert Power(10, 0) == 1 && Power(10, 1) == 10 && Power(10, 2) == 100 && Power(10, 3) == 1000;
    NumeralFits(n, 10, 3);
  }

  lemma QuadIsTail(high: nat, low: nat)
    requires high < 65536 && low < 65536
    ensures IsTail(Quad(high, low)) && TailWords(Quad(high, low)) == [high, low]
  {
    OctetIsText(high / 256);
    OctetIsText(high % 256);
    OctetIsText(low / 256);
    OctetIsText(low % 256);
  }

  /** Different addresses are written differently. */
  lemma AddressesDiffer(high: nat, low: nat, high': nat, low': nat)
    requires high < 65536 && low < 65536 && high' < 65536 && low' < 65536
    requires Ipv4FromHextets(high, low) == Ipv4FromHextets(high', low')
    ensures high == high' && low == low'
  {
    QuadIsTail(high, low);
    QuadIsTail(high', low');
    TailSplits(Quad(high, low));
    TailSplits(Quad(high', low'));
    assert TailWords(Quad(high, low)) == TailWords(Quad(high', low'));
    assert [high, low][0] == [high', low'][0] && [high, low][1] == [high', low'][1];
  }

  /** An address is found inside a text exactly when the text is of a legal form whose words carry it. */
  lemma EmbeddedExactlyWhenCarried(host: string, high: nat, low: nat)
    requires high < 65536 && low < 65536
    ensures EmbeddedIpv4(host) == Some(Ipv4FromHextets(high, low))
       <==> exists f :: Legal(f) && Print(f) == host && Carries(Words(f), high, low)
  {
    if ParseIpv6Hextets(host).Some? {
      var f := AcceptedIsPrinted(host);
      EightWords(host);
      CarriedExactly(Words(f), high, low);
    }
    if f :| Legal(f) && Print(f) == host && Carries(Words(f), high, low) {
      ParsingUndoesPrinting(f);
      WordsFit(f);
      CarriedExactly(Words(f), high, low);
    }
  }

  lemma CarriedExactly(w: seq<nat>, high: nat, low: nat)
    requires |w| == 8 && (forall k | 0 <= k < 8 :: w[k] < 65536) && high < 65536 && low < 65536
    ensures Carried(w) == Some(Ipv4FromHextets(high, low)) <==> Carries(w, high, low)
  {
    if Carried(w) == Some(Ipv4FromHextets(high, low)) {
      if w[0] == 0x2002 {
        AddressesDiffer(w[1], w[2], high, low);
      } else {
        AddressesDiffer(w[6], w[7], high, low);
      }
    }
  }

  /** An IPv4 address written after `::ffff:` comes back as it was written. */
  lemma MappedAddressComesBack(high: nat, low: nat)
    requires high < 65536 && low < 65536
    ensures EmbeddedIpv4("::ffff:" + Ipv4FromHextets(high, low)) == Some(Ipv4FromHextets(high, low))
  {
    var quad := Quad(high, low);
    var f := Short([], ["ffff"], quad);
    QuadIsTail(high, low);
    assert ["ffff"] + [Join(quad, '.')] == ["ffff", Join(quad, '.')];
    assert ["ffff", Join(quad, '.')][1..] == [Join(quad, '.')];
    PrintsAfterHead(f);
    assert Head(f) == "::ffff:";
    assert ValueOf("ffff", 16) == 0xffff by {
      FourFs();
    }
    assert Values(["ffff"]) == [0xffff] && Values([]) == [];
    assert Words(f) == [] + Zeros(5) + [0xffff] + [high, low];
    assert MAPPED <= Words(f);
    ParsingUndoesPrinting(f);
    WordsFit(f);
    CarriedExactly(Words(f), high, low);
  }

  lemma FourFs()
    ensures ValueOf("ffff", 16) == 0xffff
  {
    assert "ffff"[..3] == "fff" && "fff"[..2] == "ff" && "ff"[..1] == "f" && "f"[..0] == "";
    assert ValueOf("f", 16) == 15 && ValueOf("ff", 16) == 255 && ValueOf("fff", 16) == 4095;
  }
}

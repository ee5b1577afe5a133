/**
 * The texts of ManageSieve (RFC 5804): lines, literal headers, status lines and quoted script names.
 * One char is one octet.
 */
module SieveText {
  import opened Digits
  import opened Sequences
  import opened Wrappers

  const MAX_SIEVE_SCRIPT_BYTES: nat := 1048576
  const MAX_SIEVE_RESPONSE_BYTES: nat := MAX_SIEVE_SCRIPT_BYTES + 65536

  function Upper(c: char): char {
    if 'a' <= c <= 'z' then ((c as int) - 32) as char else c
  }

  /** The stream's first line and what follows its newline. */
  function SplitLine(stream: string): Option<(string, string)> {
    if stream == "" then None
    else if stream[0] == '\n' then Some(("", stream[1..]))
    else match SplitLine(stream[1..])
      case None => None
      case Some(p) => Some(([stream[0]] + p.0, p.1))
  }

  function Chomp(line: string): string {
    if line != "" && line[|line| - 1] == '\r' then line[..|line| - 1] else line
  }

  lemma {:induction false} SplitLineMeans(stream: string)
    ensures var p := SplitLine(stream);
            && (p.None? <==> '\n' !in stream)
            && (p.Some? ==> stream == p.value.0 + "\n" + p.value.1 && '\n' !in p.value.0)
  {
    if stream != "" && stream[0] != '\n' {
      SplitLineMeans(stream[1..]);
      assert stream == [stream[0]] + stream[1..];
    }
  }

  /** A line, once there, stays the first line whatever arrives later. */
  lemma {:induction false} SplitLineExtends(stream: string, more: string)
    ensures SplitLine(stream).Some? ==>
              SplitLine(stream + more) == Some((SplitLine(stream).value.0, SplitLine(stream).value.1 + more))
  {
    if stream != "" {
      assert (stream + more)[1..] == stream[1..] + more;
      if stream[0] != '\n' {
        SplitLineExtends(stream[1..], more);
      }
    }
  }

  lemma {:induction false} SplitLineOf(line: string, more: string)
    requires '\n' !in line
    ensures SplitLine(line + "\n" + more) == Some((line, more))
  {
    if line != "" {
      SplitLineOf(line[1..], more);
      assert (line + "\n" + more)[1..] == line[1..] + "\n" + more;
      assert (line + "\n" + more)[0] == line[0] && line == [line[0]] + line[1..];
    } else {
      assert line + "\n" + more == "\n" + more;
      assert ("\n" + more)[1..] == more;
    }
  }

  /** OK, NO or BYE in any case, alone or before white space. */
  predicate IsStatus(line: string) {
    StartsWithWord(line, "OK") || StartsWithWord(line, "NO") || StartsWithWord(line, "BYE")
  }

  predicate StartsWithWord(line: string, word: string) {
    && |word| <= |line|
    && (forall k | 0 <= k < |word| :: Upper(line[k]) == word[k])
    && (|line| == |word| || IsSpace(line[|word|]))
  }

  /** A line's first word, in capitals. */
  function StatusWord(line: string): string {
    if line == "" || IsSpace(line[0]) then "" else [Upper(line[0])] + StatusWord(line[1..])
  }

  lemma {:induction false} WordOf(line: string, word: string)
    requires StartsWithWord(line, word) && forall k | 0 <= k < |word| :: 'A' <= word[k] <= 'Z'
    ensures StatusWord(line) == word
    decreases |word|
  {
    if word != "" {
      assert Upper(line[0]) == word[0] && !IsSpace(line[0]);
      assert forall k | 0 <= k < |word[1..]| :: Upper(line[1..][k]) == word[k + 1] == word[1..][k];
      assert |line| > |word| ==> line[1..][|word| - 1] == line[|word|];
      WordOf(line[1..], word[1..]);
      assert word == [word[0]] + word[1..];
    }
  }

  lemma {:induction false} StartsWithItsWord(line: string)
    ensures StartsWithWord(line, StatusWord(line))
  {
    if line != "" && !IsSpace(line[0]) {
      var rest, word := line[1..], StatusWord(line[1..]);
      StartsWithItsWord(rest);
      assert StatusWord(line) == [Upper(line[0])] + word;
      forall k | 0 <= k < |StatusWord(line)| ensures Upper(line[k]) == StatusWord(line)[k] {
        assert k > 0 ==> line[k] == rest[k - 1] && Upper(rest[k - 1]) == word[k - 1];
      }
      assert |line| > |word| + 1 ==> line[|word| + 1] == rest[|word|];
    }
  }

  /** A status line is one whose first word is OK, NO or BYE, and no other. */
  lemma StatusExactly(line: string)
    ensures IsStatus(line) <==> StatusWord(line) == "OK" || StatusWord(line) == "NO" || StatusWord(line) == "BYE"
  {
    StartsWithItsWord(line);
    if IsStatus(line) {
      WordOf(line, if StartsWithWord(line, "OK") then "OK" else if StartsWithWord(line, "NO") then "NO" else "BYE");
    }
  }

  function StatusCode(line: string): string
    requires IsStatus(line)
  {
    [Upper(line[0]), Upper(line[1])]
  }

  function DigitsEnd(line: string, i: nat): (end: nat)
    requires i <= |line|
    ensures i <= end <= |line|
    decreases |line| - i
  {
    if i < |line| && IsDigit(line[i], 10) then DigitsEnd(line, i + 1) else i
  }

  /** The length a literal header announces, `{n}` or `{n+}`. */
  function LiteralLength(line: string): Option<nat> {
    if line == "" || line[0] != '{' then None
    else
      var end := DigitsEnd(line, 1);
      var close := if end < |line| && line[end] == '+' then end + 1 else end;
      if end > 1 && close < |line| && line[close] == '}' && AllSpace(line[close + 1..]) then
        Some(ValueOf(line[1..end], 10))
      else None
  }

  // ------------------------------------------------------------------ literal headers

  lemma {:induction false} DigitsEndAt(line: string, i: nat, end: nat)
    requires i <= end <= |line| && (forall k | i <= k < end :: IsDigit(line[k], 10))
    requires end == |line| || !IsDigit(line[end], 10)
    ensures DigitsEnd(line, i) == end
    decreases end - i
  {
    if i < end {
      DigitsEndAt(line, i + 1, end);
    }
  }

  function LiteralHeader(n: nat): string {
    "{" + Numeral(n, 10) + "}"
  }

  lemma HeaderReads(n: nat)
    ensures LiteralLength(LiteralHeader(n)) == Some(n) && !IsStatus(LiteralHeader(n))
            && Chomp(LiteralHeader(n)) == LiteralHeader(n)
    ensures '\n' !in LiteralHeader(n)
  {
    var line := LiteralHeader(n);
    NumeralReads(n, 10);
    var end := 1 + |Numeral(n, 10)|;
    forall k | 1 <= k < end ensures IsDigit(line[k], 10) {
      assert line[k] == Numeral(n, 10)[k - 1];
    }
    DigitsEndAt(line, 1, end);
    assert line[1..end] == Numeral(n, 10) && line[end + 1..] == "";
    assert Upper(line[0]) == '{';
  }

  /** A header is a brace, digits, maybe a plus, a brace and nothing but white space, and its digits are the length. */
  ghost predicate IsHeaderOf(line: string, digits: string, plus: string, spaces: string) {
    && line == "{" + digits + plus + "}" + spaces
    && digits != "" && AllDigits(digits, 10) && (plus == "" || plus == "+") && AllSpace(spaces)
  }

  lemma {:induction false} DigitsEndMeans(line: string, i: nat)
    requires i <= |line|
    ensures AllDigits(line[i..DigitsEnd(line, i)], 10)
    decreases |line| - i
  {
    if i < |line| && IsDigit(line[i], 10) {
      DigitsEndMeans(line, i + 1);
      assert line[i..DigitsEnd(line, i)] == [line[i]] + line[i + 1..DigitsEnd(line, i + 1)];
    }
  }

  lemma LiteralExactly(line: string, n: nat)
    ensures LiteralLength(line) == Some(n) <==>
              exists digits, plus, spaces | IsHeaderOf(line, digits, plus, spaces) :: ValueOf(digits, 10) == n
  {
    if LiteralLength(line) == Some(n) {
      var end := DigitsEnd(line, 1);
      var close := if line[end] == '+' then end + 1 else end;
      DigitsEndMeans(line, 1);
      assert IsHeaderOf(line, line[1..end], line[end..close], line[close + 1..]);
    }
    forall digits, plus, spaces | IsHeaderOf(line, digits, plus, spaces)
      ensures LiteralLength(line) == Some(ValueOf(digits, 10))
    {
      HeaderLength(line, digits, plus, spaces);
    }
  }

  lemma HeaderLength(line: string, digits: string, plus: string, spaces: string)
    requires IsHeaderOf(line, digits, plus, spaces)
    ensures LiteralLength(line) == Some(ValueOf(digits, 10))
  {
    var end := 1 + |digits|;
    forall k | 1 <= k < end ensures IsDigit(line[k], 10) {
      assert line[k] == digits[k - 1];
    }
    assert line[end] == (plus + "}")[0];
    DigitsEndAt(line, 1, end);
    assert line[1..end] == digits && line[end + |plus| + 1..] == spaces;
    assert line[end + |plus|] == '}';
  }

  // ------------------------------------------------------------------ quoted names

  function QuoteSieve(value: string): string {
    if value == "" then ""
    else QuoteSieve(value[..|value| - 1]) +
         (if value[|value| - 1] == '\\' || value[|value| - 1] == '"' then ['\\', value[|value| - 1]]
          else [value[|value| - 1]])
  }

  predicate EndsLine(c: char) {
    c == '\n' || c == '\r' || c == '\U{2028}' || c == '\U{2029}'
  }

  /** Where the quoted part that starts at i ends: its closing quote. */
  function ClosingQuote(line: string, i: nat): (close: Option<nat>)
    requires i <= |line|
    ensures close.Some? ==> i <= close.value < |line|
    decreases |line| - i
  {
    if i == |line| then None
    else if line[i] == '"' then Some(i)
    else if line[i] != '\\' then ClosingQuote(line, i + 1)
    else if i + 1 < |line| && !EndsLine(line[i + 1]) then ClosingQuote(line, i + 2)
    else None
  }

  /** Drops the backslash before a backslash or a quote. */
  function Unquote(s: string): string {
    if s == "" then ""
    else if s[0] == '\\' && |s| > 1 && (s[1] == '\\' || s[1] == '"') then [s[1]] + Unquote(s[2..])
    else [s[0]] + Unquote(s[1..])
  }

  /** White space and then ACTIVE, in any case. */
  predicate IsActiveMark(s: string) {
    var word := TrimStart(s);
    |word| < |s| && |word| == 6 && forall k | 0 <= k < 6 :: Upper(word[k]) == "ACTIVE"[k]
  }

  datatype ScriptInfo = ScriptInfo(name: string, active: bool)

  function ParseListLine(raw: string): Option<ScriptInfo> {
    var line := Trim(raw);
    if line == "" || line[0] != '"' then None
    else match ClosingQuote(line, 1)
      case None => None
      case Some(close) =>
        var after := line[close + 1..];
        if after == "" then Some(ScriptInfo(Unquote(line[1..close]), false))
        else if IsActiveMark(after) then Some(ScriptInfo(Unquote(line[1..close]), true))
        else None
  }

  function ListLine(name: string, active: bool): string {
    "\"" + QuoteSieve(name) + "\"" + (if active then " ACTIVE" else "")
  }

  function Escape(c: char): string {
    if c == '\\' || c == '"' then ['\\', c] else [c]
  }

  lemma {:induction false} QuoteFront(c: char, value: string)
    ensures QuoteSieve([c] + value) == Escape(c) + QuoteSieve(value)
    decreases |value|
  {
    if value != "" {
      assert ([c] + value)[..|[c] + value| - 1] == [c] + value[..|value| - 1];
      QuoteFront(c, value[..|value| - 1]);
    } else {
      assert [c] + value == [c];
      assert [c][..0] == "";
      assert QuoteSieve([c]) == "" + Escape(c);
    }
  }

  lemma {:induction false} UnquoteUndoes(value: string)
    ensures Unquote(QuoteSieve(value)) == value
  {
    if value != "" {
      assert value == [value[0]] + value[1..];
      QuoteFront(value[0], value[1..]);
      UnquoteUndoes(value[1..]);
      var q := QuoteSieve(value);
      if value[0] == '\\' || value[0] == '"' {
        assert q[2..] == QuoteSieve(value[1..]);
      } else {
        assert q[1..] == QuoteSieve(value[1..]);
      }
    }
  }

  lemma {:induction false} ClosesAfter(line: string, i: nat, value: string)
    requires i + |QuoteSieve(value)| < |line| && line[i..i + |QuoteSieve(value)|] == QuoteSieve(value)
    requires line[i + |QuoteSieve(value)|] == '"'
    ensures ClosingQuote(line, i) == Some(i + |QuoteSieve(value)|)
    decreases |value|
  {
    if value != "" {
      assert value == [value[0]] + value[1..];
      QuoteFront(value[0], value[1..]);
      var n, step := |QuoteSieve(value)|, |Escape(value[0])|;
      var part := line[i..i + n];
      assert part[0] == line[i];
      assert part[..step] == Escape(value[0]);
      assert part[step..] == QuoteSieve(value[1..]);
      assert line[i + step..i + n] == part[step..];
      if step == 2 {
        assert part[1] == line[i + 1];
      }
      ClosesAfter(line, i + step, value[1..]);
    }
  }

  /** Listing undoes quoting, for every name and either mark. */
  lemma ListedNameIsTheName(name: string, active: bool)
    ensures ParseListLine(ListLine(name, active)) == Some(ScriptInfo(name, active))
  {
    var line, q := ListLine(name, active), QuoteSieve(name);
    assert line[0] == '"';
    assert line[|line| - 1] == if active then 'E' else '"';
    assert line[1..1 + |q|] == q;
    ClosesAfter(line, 1, name);
    UnquoteUndoes(name);
    var after := line[|q| + 2..];
    if active {
      assert after == " ACTIVE";
      assert TrimStart(after) == TrimStart(after[1..]) == "ACTIVE";
    }
  }
}

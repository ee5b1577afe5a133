/** The incremental reader of ManageSieve responses, against parsing the whole stream at once. */
module Sieve {
  import opened Sequences
  import opened SieveText
  import opened Wrappers

  datatype Response = Response(code: string, lines: seq<string>, message: string)

  datatype ReadError = Closed | ResponseTooLarge | LiteralTooLarge

  datatype Result<T> = Ok(value: T) | Err(error: ReadError)

  datatype Parsed = Complete(response: Response, rest: string) | NeedsMore | BadLiteral

  /** What a stream holds, read in one piece. */
  function Parse(stream: string, lines: seq<string>): Parsed
    decreases |stream|
  {
    match SplitLine(stream)
    case None => NeedsMore
    case Some(p) =>
      SplitLineMeans(stream);
      var line := Chomp(p.0);
      if IsStatus(line) then Complete(Response(StatusCode(line), lines, line), p.1)
      else match LiteralLength(line)
        case None => Parse(p.1, lines + [line])
        case Some(n) =>
          if n > MAX_SIEVE_SCRIPT_BYTES then BadLiteral
          else if |p.1| < n then NeedsMore
          else match SplitLine(p.1[n..])
            case None => NeedsMore
            case Some(q) =>
              SplitLineMeans(p.1[n..]);
              Parse(q.1, lines + [p.1[..n]])
  }

  function Concat(chunks: seq<string>): string {
    if chunks == [] then "" else chunks[0] + Concat(chunks[1..])
  }

  class SieveConn {
    var buf: string
    /** What the socket will still deliver, one chunk a data event, before it closes. */
    var chunks: seq<string>
    /** Counted since the response began. */
    var bytes: nat

    constructor (delivered: seq<string>)
      ensures buf == "" && chunks == delivered && Stream() == Concat(delivered)
    {
      buf, chunks, bytes := "", delivered, 0;
    }

    ghost function Stream(): string
      reads this
    {
      buf + Concat(chunks)
    }

    /** Octets counted and to come. */
    ghost function Total(): nat
      reads this
    {
      bytes + |Concat(chunks)|
    }

    /** One data event while a reader waits; false when there is no event left, or when it is one too many. */
    method Wait() returns (r: Result<()>)
      modifies this
      ensures r.Ok? ==> Stream() == old(Stream()) && Total() == old(Total()) && |chunks| < |old(chunks)|
      ensures r == Err(Closed) ==> chunks == [] && buf == old(buf) == old(Stream())
      ensures r.Ok? ==> bytes <= MAX_SIEVE_RESPONSE_BYTES
      ensures r.Err? ==> r == Err(Closed) || (r == Err(ResponseTooLarge) && old(Total()) > MAX_SIEVE_RESPONSE_BYTES)
    {
      if chunks == [] {
        assert buf + "" == buf;
        return Err(Closed);
      }
      bytes := bytes + |chunks[0]|;
      if bytes > MAX_SIEVE_RESPONSE_BYTES {
        chunks := [];
        return Err(ResponseTooLarge);
      }
      assert buf + (chunks[0] + Concat(chunks[1..])) == (buf + chunks[0]) + Concat(chunks[1..]);
      buf, chunks := buf + chunks[0], chunks[1..];
      r := Ok(());
    }

    method ReadLine() returns (r: Result<string>)
      modifies this
      ensures r.Ok? ==> SplitLine(old(Stream())).Some? && r.value == Chomp(SplitLine(old(Stream())).value.0)
                        && Stream() == SplitLine(old(Stream())).value.1 && Total() == old(Total())
      ensures r.Ok? && old(bytes) <= MAX_SIEVE_RESPONSE_BYTES ==> bytes <= MAX_SIEVE_RESPONSE_BYTES
      ensures r == Err(Closed) ==> SplitLine(old(Stream())).None?
      ensures r == Err(ResponseTooLarge) ==> old(Total()) > MAX_SIEVE_RESPONSE_BYTES
      ensures r != Err(LiteralTooLarge)
    {
      while true
        invariant Stream() == old(Stream()) && Total() == old(Total())
        invariant old(bytes) <= MAX_SIEVE_RESPONSE_BYTES ==> bytes <= MAX_SIEVE_RESPONSE_BYTES
        decreases |chunks|
      {
        var line := SplitLine(buf);
        if line.Some? {
          SplitLineExtends(buf, Concat(chunks));
          buf := line.value.1;
          return Ok(Chomp(line.value.0));
        }
        var w := Wait();
        if w.Err? {
          return Err(w.error);
        }
      }
    }

    method ReadBytes(n: nat) returns (r: Result<string>)
      modifies this
      ensures r.Ok? ==>
                n <= |old(Stream())| && r.value == old(Stream())[..n] && Stream() == old(Stream())[n..]
                && Total() == old(Total())
      ensures r.Ok? && old(bytes) <= MAX_SIEVE_RESPONSE_BYTES ==> bytes <= MAX_SIEVE_RESPONSE_BYTES
      ensures r == Err(Closed) ==> |old(Stream())| < n
      ensures r == Err(ResponseTooLarge) ==> old(Total()) > MAX_SIEVE_RESPONSE_BYTES
      ensures r != Err(LiteralTooLarge)
    {
      while |buf| < n
        invariant Stream() == old(Stream()) && Total() == old(Total())
        invariant old(bytes) <= MAX_SIEVE_RESPONSE_BYTES ==> bytes <= MAX_SIEVE_RESPONSE_BYTES
        decreases |chunks|
      {
        var w := Wait();
        if w.Err? {
          return Err(w.error);
        }
      }
      r := Ok(buf[..n]);
      buf := buf[n..];
    }

    /** However the stream was cut: the response, the error and the unread rest are those of the whole stream. */
    method ReadResponse() returns (r: Result<Response>)
      modifies this
      ensures r.Ok? ==> Parse(old(Stream()), []) == Complete(r.value, Stream())
      ensures r == Err(Closed) ==> Parse(old(Stream()), []) == NeedsMore
      ensures r == Err(LiteralTooLarge) ==> Parse(old(Stream()), []) == BadLiteral
      ensures r == Err(ResponseTooLarge) ==> |old(Stream())| > 1048576 + 65536
      // no more than that was taken from the socket, the rest of an earlier delivery included
      ensures r.Ok? ==> |old(Stream())| - |Concat(chunks)| <= 1048576 + 65536
    {
      var lines: seq<string> := [];
      bytes := |buf|;
      if bytes > MAX_SIEVE_RESPONSE_BYTES {
        return Err(ResponseTooLarge);
      }
      while true
        invariant Parse(Stream(), lines) == Parse(old(Stream()), [])
        invariant Total() == |old(Stream())| && bytes <= MAX_SIEVE_RESPONSE_BYTES
        decreases |Stream()|
      {
        ghost var stream := Stream();
        SplitLineMeans(stream);
        var line := ReadLine();
        if line.Err? {
          return Err(line.error);
        }
        if IsStatus(line.value) {
          return Ok(Response(StatusCode(line.value), lines, line.value));
        }
        var length := LiteralLength(line.value);
        if length.Some? {
          if length.value > MAX_SIEVE_SCRIPT_BYTES {
            return Err(LiteralTooLarge);
          }
          var payload := ReadBytes(length.value);
          if payload.Err? {
            return Err(payload.error);
          }
          lines := lines + [payload.value];
          SplitLineMeans(Stream());
          var end := ReadLine();
          if end.Err? {
            return Err(end.error);
          }
        } else {
          lines := lines + [line.value];
        }
      }
    }
  }

  // ------------------------------------------------------------------ what the server wrote

  datatype Item = Line(text: string) | Literal(payload: string)

  /** A line the reader takes as it is. */
  predicate IsPlain(text: string) {
    '\n' !in text && Chomp(text) == text && !IsStatus(text) && LiteralLength(text).None?
  }

  predicate Sendable(item: Item) {
    if item.Line? then IsPlain(item.text) else |item.payload| <= MAX_SIEVE_SCRIPT_BYTES
  }

  function Written(item: Item): string {
    if item.Line? then item.text + "\r\n"
    else LiteralHeader(|item.payload|) + "\r\n" + item.payload + "\r\n"
  }

  function Contents(item: Item): string {
    if item.Line? then item.text else item.payload
  }

  function WrittenAll(items: seq<Item>, status: string): string {
    if items == [] then status + "\r\n" else Written(items[0]) + WrittenAll(items[1..], status)
  }

  function ContentsOf(items: seq<Item>): seq<string> {
    if items == [] then [] else [Contents(items[0])] + ContentsOf(items[1..])
  }

  lemma LineWithReturn(text: string, more: string)
    requires '\n' !in text
    ensures SplitLine(text + "\r\n" + more) == Some((text + "\r", more)) && Chomp(text + "\r") == text
  {
    assert text + "\r\n" + more == (text + "\r") + "\n" + more;
    SplitLineOf(text + "\r", more);
  }

  lemma ItemReads(item: Item, lines: seq<string>, more: string)
    requires Sendable(item)
    ensures Parse(Written(item) + more, lines) == Parse(more, lines + [Contents(item)])
  {
    if item.Line? {
      LineWithReturn(item.text, more);
    } else {
      var n := |item.payload|;
      HeaderReads(n);
      var after := item.payload + "\r\n" + more;
      assert Written(item) + more == LiteralHeader(n) + "\r\n" + after;
      LineWithReturn(LiteralHeader(n), after);
      assert after[..n] == item.payload && after[n..] == "" + "\r\n" + more;
      LineWithReturn("", more);
    }
  }

  /** Literals included: what the server wrote is what is read, whatever octets a literal holds. */
  lemma {:induction false} ReadsWhatWasWritten(items: seq<Item>, status: string, lines: seq<string>, more: string)
    requires (forall item | item in items :: Sendable(item)) && '\n' !in status && IsStatus(status)
    ensures Parse(WrittenAll(items, status) + more, lines)
            == Complete(Response(StatusCode(status), lines + ContentsOf(items), status), more)
    decreases |items|
  {
    if items == [] {
      LineWithReturn(status, more);
      assert lines + ContentsOf(items) == lines;
    } else {
      var rest := WrittenAll(items[1..], status) + more;
      assert WrittenAll(items, status) + more == Written(items[0]) + rest;
      ItemReads(items[0], lines, rest);
      ReadsWhatWasWritten(items[1..], status, lines + [Contents(items[0])], more);
      assert lines + ContentsOf(items) == lines + [Contents(items[0])] + ContentsOf(items[1..]);
    }
  }

  /** The response ends with this line, whatever came before and comes after. */
  ghost predicate Ends(line: string, code: string) {
    forall lines, more :: Parse(line + "\r\n" + more, lines) == Complete(Response(code, lines, line), more)
  }

  lemma WordEnds(word: string, full: string, text: string)
    requires '\n' !in text && '\n' !in word
    requires |word| == |full| && forall k | 0 <= k < |word| :: Upper(word[k]) == full[k]
    requires full == "OK" || full == "NO" || full == "BYE"
    ensures Ends(word, full[..2]) && Ends(word + " " + text, full[..2])
  {
    var line := word + " " + text;
    assert IsSpace(line[|word|]) && forall k | 0 <= k < |word| :: line[k] == word[k];
    assert StartsWithWord(word, full) && StartsWithWord(line, full);
    StatusEnds(word, full);
    StatusEnds(line, full);
  }

  lemma StatusEnds(line: string, full: string)
    requires '\n' !in line && StartsWithWord(line, full) && (full == "OK" || full == "NO" || full == "BYE")
    ensures Ends(line, full[..2])
  {
    forall lines, more
      ensures Parse(line + "\r\n" + more, lines) == Complete(Response(full[..2], lines, line), more)
    {
      LineWithReturn(line, more);
      assert StatusCode(line) == full[..2];
    }
  }

  /** OK, NO or BYE in any case, alone or before a space and any text, ends the response. */
  lemma AnyCaseEndsTheResponse(a: char, b: char, c: char, text: string)
    requires '\n' !in text
    ensures (a == 'O' || a == 'o') && (b == 'K' || b == 'k') ==> Ends([a, b], "OK") && Ends([a, b] + " " + text, "OK")
    ensures (a == 'N' || a == 'n') && (b == 'O' || b == 'o') ==> Ends([a, b], "NO") && Ends([a, b] + " " + text, "NO")
    ensures (a == 'B' || a == 'b') && (b == 'Y' || b == 'y') && (c == 'E' || c == 'e') ==>
              Ends([a, b, c], "BY") && Ends([a, b, c] + " " + text, "BY")
  {
    assert "OK"[..2] == "OK" && "NO"[..2] == "NO" && "BYE"[..2] == "BY";
    if (a == 'O' || a == 'o') && (b == 'K' || b == 'k') {
      WordEnds([a, b], "OK", text);
    }
    if (a == 'N' || a == 'n') && (b == 'O' || b == 'o') {
      WordEnds([a, b], "NO", text);
    }
    if (a == 'B' || a == 'b') && (b == 'Y' || b == 'y') && (c == 'E' || c == 'e') {
      WordEnds([a, b, c], "BYE", text);
    }
  }

  /** A literal announced longer than 1048576 octets is refused before any of it is read. */
  lemma TooLongIsRefused(n: nat, lines: seq<string>, more: string)
    requires n > 1048576
    ensures Parse(LiteralHeader(n) + "\r\n" + more, lines) == BadLiteral
  {
    HeaderReads(n);
    LineWithReturn(LiteralHeader(n), more);
  }

  /**
   * The response's code is the status word the server sent exactly when that word is not BYE, which is
   * reported as BY.
   */
  lemma CodeIsTheWordUnlessBye(items: seq<Item>, status: string, more: string)
    requires (forall item | item in items :: Sendable(item)) && '\n' !in status && IsStatus(status)
    ensures StatusWord(status) == "OK" || StatusWord(status) == "NO" || StatusWord(status) == "BYE"
    ensures var p := Parse(WrittenAll(items, status) + more, []);
            && p.Complete?
            && (p.response.code == StatusWord(status) <==> StatusWord(status) != "BYE")
            && (StatusWord(status) == "BYE" ==> p.response.code == "BY")
  {
    ReadsWhatWasWritten(items, status, [], more);
    var word := if StartsWithWord(status, "OK") then "OK" else if StartsWithWord(status, "NO") then "NO" else "BYE";
    WordOf(status, word);
  }
}

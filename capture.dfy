/**
 * What a transfer hands back: the body chunks (`Storage`), the raw header
 * lines parsed into a name-to-value map in which a repeated name is promoted
 * from one value to an ordered list (`HeaderStorage`), and the response
 * that wraps them (`OpalResponse`).
 */
module Capture {
  import opened Wrappers
  import opened Text

  /** A received header: one value, or every value of a repeated name in arrival order. */
  datatype HeaderValue = Single(value: string) | Many(values: seq<string>)

  /** The values a header holds, in arrival order. */
  function Values(h: HeaderValue): seq<string> {
    match h
    case Single(v) => [v]
    case Many(vs) => vs
  }

  /** The stored shape of a non-empty run of values of one name. */
  function Shape(vs: seq<string>): (h: HeaderValue)
    requires vs != []
    ensures Values(h) == vs
    ensures h.Single? <==> |vs| == 1
  {
    if |vs| == 1 then Single(vs[0]) else Many(vs)
  }

  /**
   * The name and trimmed value of a raw header line, or `None` when the
   * line has no colon.
   */
  function ParseHeaderLine(buf: string): (r: Option<(string, string)>)
    ensures r.None? <==> ':' !in buf
  {
    var (before, sep, after) := Partition(buf);
    if sep != "" then Some((before, Strip(RStrip(after)))) else None
  }

  /**
   * The name of a header line is the exact text before its first colon, not
   * trimmed and not case-folded, and its value is the rest of the line with
   * surrounding whitespace removed.
   */
  lemma HeaderLineParts(buf: string)
    requires ':' in buf
    ensures var (name, value) := ParseHeaderLine(buf).value;
      |name| < |buf| && buf[..|name|] == name && buf[|name|] == ':' && ':' !in name &&
      value == Strip(buf[|name| + 1..])
  {
    var p := Partition(buf);
    var before, after := p.0, p.2;
    assert p.1 == ":";
    assert ParseHeaderLine(buf).value == (before, Strip(RStrip(after)));
    assert buf == before + ":" + after;
    assert buf[..|before|] == before && buf[|before|] == ':';
    assert buf[|before| + 1..] == after;
    RStripThenStrip(after);
  }

  /** Records one value of `name`: first as a scalar, then promoted to a list and appended to. */
  function AddHeader(headers: map<string, HeaderValue>, name: string, value: string): (r: map<string, HeaderValue>)
    ensures name in r && r.Keys == headers.Keys + {name}
    ensures name !in headers ==> r[name] == Single(value)
    ensures name in headers && headers[name].Single? ==> r[name] == Many([headers[name].value, value])
    ensures name in headers && headers[name].Many? ==> r[name] == Many(headers[name].values + [value])
    ensures forall n :: n in headers && n != name ==> r[n] == headers[n]
  {
    if name in headers then
      match headers[name]
      case Single(current) => headers[name := Many([current, value])]
      case Many(vs) => headers[name := Many(vs + [value])]
    else headers[name := Single(value)]
  }

  /** The header map after one raw header line arrives. */
  function Received(headers: map<string, HeaderValue>, buf: string): (r: map<string, HeaderValue>)
    ensures ':' !in buf ==> r == headers
  {
    match ParseHeaderLine(buf)
    case None => headers
    case Some((name, value)) => AddHeader(headers, name, value)
  }

  /** The header map after a run of raw header lines, starting from an empty map. */
  function Collected(lines: seq<string>): map<string, HeaderValue> {
    if lines == [] then map[] else Received(Collected(lines[..|lines| - 1]), lines[|lines| - 1])
  }

  /** The trimmed values of the lines whose name is exactly `name`, in arrival order. */
  function ValuesOf(lines: seq<string>, name: string): seq<string> {
    if lines == [] then []
    else
      var earlier := ValuesOf(lines[..|lines| - 1], name);
      match ParseHeaderLine(lines[|lines| - 1])
      case Some((n, v)) => if n == name then earlier + [v] else earlier
      case None => earlier
  }

  /** One more line updates the collected map by that line alone. */
  lemma CollectedSnoc(lines: seq<string>, buf: string)
    ensures Collected(lines + [buf]) == Received(Collected(lines), buf)
  {
    assert (lines + [buf])[..|lines|] == lines;
  }

  /**
   * The promotion rule over a whole run of lines: a name is present exactly
   * when some line carries it, and then holds every value of that name in
   * arrival order, as a scalar when there is one and as a list otherwise.
   */
  lemma {:induction false} CollectedValues(lines: seq<string>, name: string)
    ensures name in Collected(lines) <==> ValuesOf(lines, name) != []
    ensures name in Collected(lines) ==> Collected(lines)[name] == Shape(ValuesOf(lines, name))
  {
    if lines != [] {
      var earlier := lines[..|lines| - 1];
      CollectedValues(earlier, name);
      var before := Collected(earlier);
      match ParseHeaderLine(lines[|lines| - 1])
      case None =>
      case Some((n, v)) =>
        if n == name && name in before {
          var vs := ValuesOf(earlier, name);
          if |vs| == 1 {
            assert vs + [v] == [vs[0], v];
          }
        }
    }
  }

  /** Body capture: each chunk the transfer delivers is appended, and the calls are counted. */
  class Storage {
    var contents: string
    var line: nat
    /** The chunks delivered so far, in order. */
    ghost var chunks: seq<string>

    ghost predicate Valid()
      reads this
    {
      contents == Concat(chunks) && line == |chunks|
    }

    constructor ()
      ensures Valid() && chunks == []
      ensures contents == "" && line == 0
    {
      contents := "";
      line := 0;
      chunks := [];
    }

    method Store(buf: string)
      requires Valid()
      modifies this
      ensures Valid() && chunks == old(chunks) + [buf]
      ensures contents == old(contents) + buf && line == old(line) + 1
    {
      line := line + 1;
      contents := contents + buf;
      chunks := chunks + [buf];
      assert chunks[..|chunks| - 1] == old(chunks);
    }
  }

  /** Storing one run of chunks and then another leaves the first run's text followed by the second's. */
  lemma StoredRuns(s: Storage, xs: seq<string>, ys: seq<string>)
    requires s.Valid() && s.chunks == xs + ys
    ensures s.contents == Concat(xs) + Concat(ys)
  {
    ConcatAppend(xs, ys);
  }

  /**
   * Header capture: every raw line is stored as body capture stores a chunk,
   * and each line with a colon is also recorded in `headers`.
   */
  class HeaderStorage {
    /** The storage every raw header line is also appended to. */
    const storage: Storage
    var headers: map<string, HeaderValue>

    ghost predicate Valid()
      reads this, storage
    {
      storage.Valid() && headers == Collected(storage.chunks)
    }

    constructor ()
      ensures Valid() && fresh(storage)
      ensures storage.chunks == [] && storage.contents == "" && storage.line == 0
      ensures headers == map[]
    {
      storage := new Storage();
      headers := map[];
    }

    method Store(buf: string)
      requires Valid()
      modifies this`headers, storage
      ensures Valid() && storage.chunks == old(storage.chunks) + [buf]
      ensures storage.contents == old(storage.contents) + buf && storage.line == old(storage.line) + 1
      ensures headers == Received(old(headers), buf)
    {
      storage.Store(buf);
      match ParseHeaderLine(buf) {
        case None =>
        case Some((name, value)) => Record(name, value);
      }
      CollectedSnoc(old(storage.chunks), buf);
    }

    /** The map update of `Store` for a line with a colon. */
    method Record(name: string, value: string)
      modifies this`headers
      ensures headers == AddHeader(old(headers), name, value)
    {
      if name in headers {
        // a scalar is first promoted to a one-element list, then the list is appended to
        var current := headers[name];
        var values := if current.Single? then [current.value] else current.values;
        assert current.Single? ==> values + [value] == [current.value, value];
        headers := headers[name := Many(values + [value])];
      } else {
        headers := headers[name := Single(value)];
      }
    }
  }

  /** The header map a transfer leaves when curl hands each raw header line to `HeaderStorage.Store` in turn. */
  method CaptureHeaders(lines: seq<string>) returns (headers: map<string, HeaderValue>)
    ensures headers == Collected(lines)
  {
    var hbuf := new HeaderStorage();
    var i := 0;
    while i < |lines|
      invariant 0 <= i <= |lines|
      invariant hbuf.Valid() && hbuf.storage.chunks == lines[..i]
      modifies hbuf, hbuf.storage
    {
      PrefixStep(lines, i);
      hbuf.Store(lines[i]);
      i := i + 1;
    }
    assert lines[..i] == lines;
    headers := hbuf.headers;
  }

  /** The body a transfer leaves when curl hands each chunk to `Storage.Store` in turn. */
  method CaptureBody(chunks: seq<string>) returns (contents: string)
    ensures contents == Concat(chunks)
  {
    var cbuf := new Storage();
    var i := 0;
    while i < |chunks|
      invariant 0 <= i <= |chunks|
      invariant cbuf.Valid() && cbuf.chunks == chunks[..i]
    {
      PrefixStep(chunks, i);
      cbuf.Store(chunks[i]);
      i := i + 1;
    }
    assert chunks[..i] == chunks;
    contents := cbuf.contents;
  }

  /** A completed call: its status code, captured headers and body, fixed once built. */
  class OpalResponse {
    const code: int
    const headers: map<string, HeaderValue>
    const content: string

    constructor (code: int, headers: map<string, HeaderValue>, content: string)
      ensures this.code == code && this.headers == headers && this.content == content
    {
      this.code := code;
      this.headers := headers;
      this.content := content;
    }
  }
}

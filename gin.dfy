/** The part of the web framework and of net/http that the middleware sees:
    bytes, response headers, the request URL, the connection's response
    writer, the per-request context and the handlers further down the chain. */
module Gin {

  newtype Byte = x: int | 0 <= x < 256

  type Bytes = seq<Byte>

  /** The bytes of an ASCII string; other characters are not expected here. */
  function Ascii(s: string): (b: Bytes)
    ensures |b| == |s| && forall i :: 0 <= i < |s| && s[i] as int < 128 ==> b[i] as int == s[i] as int
  {
    seq(|s|, i requires 0 <= i < |s| => (s[i] as int % 256) as Byte)
  }

  /** Encoding a concatenation concatenates the encodings. */
  lemma AsciiAppend(s: string, t: string)
    ensures Ascii(s + t) == Ascii(s) + Ascii(t)
  {
    assert forall i | 0 <= i < |s + t| :: Ascii(s + t)[i] == (Ascii(s) + Ascii(t))[i] by {
      forall i | 0 <= i < |s + t|
        ensures Ascii(s + t)[i] == (Ascii(s) + Ascii(t))[i]
      {
        if i < |s| {
          assert (s + t)[i] == s[i];
        } else {
          assert (s + t)[i] == t[i - |s|];
        }
      }
    }
  }

  /** http.Header: each name maps to its values, in the order they were added. */
  type Header = map<string, seq<string>>

  function Values(h: Header, k: string): seq<string>
  {
    if k in h then h[k] else []
  }

  /** Header.Add: append one value to the values of `k`. */
  function Add(h: Header, k: string, v: string): (r: Header)
    ensures r.Keys == h.Keys + {k}
    ensures Values(r, k) == Values(h, k) + [v]
    ensures forall k' :: k' != k ==> Values(r, k') == Values(h, k')
  {
    h[k := Values(h, k) + [v]]
  }

  /** The header after calling Header.Add(k, v) for each v of `vs` in turn:
      the values are appended in order, and no values add nothing. */
  function AddAll(h: Header, k: string, vs: seq<string>): Header
  {
    if vs == [] then h else h[k := Values(h, k) + vs]
  }

  /** One more Add extends the values appended so far. */
  lemma AddAllStep(h: Header, k: string, vs: seq<string>, v: string)
    ensures Add(AddAll(h, k, vs), k, v) == AddAll(h, k, vs + [v])
  {
    assert Values(AddAll(h, k, vs), k) + [v] == Values(h, k) + (vs + [v]);
  }

  /** Every value of `extra` appended after the values already in `h`; a name
      of `extra` with no values adds nothing, not even the name. */
  function Merged(h: Header, extra: Header): (r: Header)
    ensures forall k :: Values(r, k) == Values(h, k) + Values(extra, k)
    ensures forall k :: k in r <==> k in h || (k in extra && extra[k] != [])
  {
    map k | k in h.Keys + extra.Keys && (k in h || extra[k] != []) :: Values(h, k) + Values(extra, k)
  }

  /** The index of the first `ch` in `s`, or the length when there is none. */
  function FirstIndex(s: string, ch: char): (i: nat)
    ensures i <= |s|
    ensures i < |s| ==> s[i] == ch
    ensures forall j :: 0 <= j < i ==> s[j] != ch
  {
    if s == [] then 0 else if s[0] == ch then 0 else 1 + FirstIndex(s[1..], ch)
  }

  /** A prefix free of `ch` followed by text that is empty or starts with `ch`
      ends exactly where `ch` is first found. */
  lemma {:induction false} FirstIndexAfter(p: string, rest: string, ch: char)
    requires ch !in p && (rest == [] || rest[0] == ch)
    ensures FirstIndex(p + rest, ch) == |p|
    decreases |p|
  {
    if p != [] {
      assert (p + rest)[1..] == p[1..] + rest;
      FirstIndexAfter(p[1..], rest, ch);
    }
  }

  /** A request URL in origin form (the target of an ordinary server request,
      "/path?query"): the escaped path and the raw query, as url.URL keeps
      them. Absolute-form targets, which also carry a scheme and a host, are
      not modelled. */
  datatype Url = Url(path: string, rawQuery: string, forceQuery: bool)

  /** url.URL.String() for such a URL. */
  function UrlString(u: Url): string
  {
    if u.forceQuery || u.rawQuery != "" then u.path + "?" + u.rawQuery else u.path
  }

  datatype Request = Request(verb: string, url: Url, clientIP: string)

  /** What a response writer has received so far. */
  datatype Response = Response(header: Header, status: int, body: Bytes)

  /** The connection's response writer. `broken` says that the client's
      connection fails every write. */
  class Sink {
    var header: Header
    var status: int
    var body: Bytes
    const broken: bool

    function View(): Response
      reads this
    {
      Response(header, status, body)
    }

    /** A response writer before anything was written: status 200. */
    constructor (broken: bool)
      ensures View() == Response(map[], 200, []) && this.broken == broken
    {
      header, status, body := map[], 200, [];
      this.broken := broken;
    }

    /** Header().Add(k, v). */
    method AddHeader(k: string, v: string)
      modifies this
      ensures View() == old(View()).(header := Add(old(header), k, v))
    {
      header := Add(header, k, v);
    }

    /** WriteHeader(code): a code of 0 or less is ignored. */
    method WriteHeader(code: int)
      modifies this
      ensures code > 0 ==> View() == old(View()).(status := code)
      ensures code <= 0 ==> View() == old(View())
    {
      status := StatusAfter(status, code);
    }

    method Write(b: Bytes) returns (n: int, failed: bool)
      modifies this
      ensures (n, failed) == WriteResult(broken, b)
      ensures View() == old(View()).(body := if broken then old(body) else old(body) + b)
    {
      if broken {
        n, failed := 0, true;
      } else {
        body := body + b;
        n, failed := |b|, false;
      }
    }
  }

  /** The status once WriteHeader(code) was called on a writer holding
      `status`: gin's writer ignores a code of 0 or less. */
  function StatusAfter(status: int, code: int): (s: int)
    ensures code > 0 ==> s == code
    ensures code <= 0 ==> s == status
  {
    if code > 0 then code else status
  }

  /** What Write returns: the byte count, and whether it failed. */
  function WriteResult(broken: bool, b: Bytes): (int, bool)
  {
    if broken then (0, true) else (|b|, false)
  }

  /** One thing a downstream handler does to the response. */
  datatype Action =
    | AddHeaderValue(key: string, value: string)
    | SetStatus(code: int)
    | WriteBody(data: Bytes)
    | AbortChain

  function ApplyOne(r: Response, broken: bool, a: Action): Response
  {
    match a
    case AddHeaderValue(k, v) => r.(header := Add(r.header, k, v))
    case SetStatus(code) => r.(status := StatusAfter(r.status, code))
    case WriteBody(data) => if broken then r else r.(body := r.body + data)
    case AbortChain => r
  }

  /** The response after the handlers performed `acts` in order. */
  function Perform(r: Response, broken: bool, acts: seq<Action>): Response
    decreases |acts|
  {
    if acts == [] then r
    else ApplyOne(Perform(r, broken, acts[..|acts| - 1]), broken, acts[|acts| - 1])
  }

  /** All the bytes the handlers write, in order. */
  function Written(acts: seq<Action>): Bytes
    decreases |acts|
  {
    if acts == [] then []
    else
      var a := acts[|acts| - 1];
      Written(acts[..|acts| - 1]) + (if a.WriteBody? then a.data else [])
  }

  predicate Aborts(acts: seq<Action>)
  {
    exists i :: 0 <= i < |acts| && acts[i].AbortChain?
  }

  /** On a working connection the body grows by exactly the bytes written,
      and handlers that only add headers leave every value list non-empty. */
  lemma {:induction false} PerformBody(r: Response, acts: seq<Action>)
    ensures Perform(r, false, acts).body == r.body + Written(acts)
    ensures Perform(r, true, acts).body == r.body
    ensures (forall k :: k in r.header ==> r.header[k] != []) ==>
              forall k :: k in Perform(r, false, acts).header ==> Perform(r, false, acts).header[k] != []
    decreases |acts|
  {
    if acts != [] {
      PerformBody(r, acts[..|acts| - 1]);
    }
  }

  /** gin.Context, as far as the middleware uses it: the request, the
      connection's writer, whether the chain was aborted, and (for the proofs)
      whether the handlers after the middleware ran. */
  class Context {
    const request: Request
    const sink: Sink
    var aborted: bool
    ghost var reachedHandler: bool

    constructor (request: Request, sink: Sink)
      ensures this.request == request && this.sink == sink
      ensures !aborted && !reachedHandler
    {
      this.request := request;
      this.sink := sink;
      aborted := false;
      reachedHandler := false;
    }

    /** Context.Abort: the handlers not yet run are skipped. */
    method Abort()
      modifies this
      ensures aborted && reachedHandler == old(reachedHandler)
    {
      aborted := true;
    }
  }

  /** One handler action on the connection's own writer. */
  method Apply(c: Context, a: Action)
    modifies c, c.sink
    ensures c.sink.View() == ApplyOne(old(c.sink.View()), c.sink.broken, a)
    ensures c.aborted == (old(c.aborted) || a.AbortChain?)
    ensures c.reachedHandler == old(c.reachedHandler)
  {
    match a {
      case AddHeaderValue(k, v) => c.sink.AddHeader(k, v);
      case SetStatus(code) => c.sink.WriteHeader(code);
      case WriteBody(data) => var _, _ := c.sink.Write(data);
      case AbortChain => c.Abort();
    }
  }

  /** Context.Next with the connection's own writer: the handlers further down
      run and write straight to the connection. */
  method Next(c: Context, acts: seq<Action>)
    modifies c, c.sink
    ensures c.sink.View() == Perform(old(c.sink.View()), c.sink.broken, acts)
    ensures c.aborted == (old(c.aborted) || Aborts(acts))
    ensures c.reachedHandler
  {
    c.reachedHandler := true;
    var i := 0;
    while i < |acts|
      invariant 0 <= i <= |acts|
      invariant c.sink.View() == Perform(old(c.sink.View()), c.sink.broken, acts[..i])
      invariant c.aborted == (old(c.aborted) || Aborts(acts[..i]))
      invariant c.reachedHandler
    {
      assert acts[..i + 1][..i] == acts[..i];
      Apply(c, acts[i]);
      assert Aborts(acts[..i + 1]) == (Aborts(acts[..i]) || acts[i].AbortChain?) by {
        assert acts[..i + 1][i] == acts[i];
      }
      i := i + 1;
    }
    assert acts[..|acts|] == acts;
  }
}

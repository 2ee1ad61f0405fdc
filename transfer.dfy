/** What a sequence of ranged GETs writes to the destination file: each
    reply's body, appended in the order the ranges were requested. */
module Transfer {
  import opened Ints
  import opened Http
  import opened RangeIter

  /** The server, as the answer it gives to each `Range` header value. */
  type Server = string -> Reply<Response>

  /** The bytes appended for the ranges `rs`, in order. */
  function Concat(rs: seq<Range>, server: Server): seq<byte> {
    if rs == [] then [] else BodyOf(server(Header(rs[0]))) + Concat(rs[1..], server)
  }

  lemma {:induction false} ConcatSnoc(rs: seq<Range>, r: Range, server: Server)
    ensures Concat(rs + [r], server) == Concat(rs, server) + BodyOf(server(Header(r)))
  {
    if rs != [] {
      assert (rs + [r])[1..] == rs[1..] + [r];
      ConcatSnoc(rs[1..], r, server);
    }
  }

  /** The reply to `r` carries exactly the bytes of `content` that `r` asks for. */
  predicate Exact(server: Server, content: seq<byte>, r: Range) {
    r.first <= r.last < |content| && BodyOf(server(Header(r))) == content[r.first..r.last + 1]
  }

  /** Every reply to `rs` carries exactly the bytes its range asks for. */
  predicate AllExact(server: Server, content: seq<byte>, rs: seq<Range>) {
    forall i :: 0 <= i < |rs| ==> Exact(server, content, rs[i])
  }

  lemma AllExactCons(server: Server, content: seq<byte>, r: Range, rest: seq<Range>)
    requires AllExact(server, content, [r] + rest)
    ensures Exact(server, content, r) && AllExact(server, content, rest)
  {
    assert ([r] + rest)[0] == r;
    assert forall i :: 0 <= i < |rest| ==> rest[i] == ([r] + rest)[i + 1];
  }

  lemma SliceSplit(content: seq<byte>, i: nat, j: nat, k: nat)
    requires i <= j <= k <= |content|
    ensures content[i..j] + content[j..k] == content[i..k]
  {
  }

  /** When every reply carries exactly the bytes its range asks for, the
      appended bodies of the ranges over `[s, e]` are the content's bytes
      `s..=e`. */
  lemma {:induction false} ConcatExact(content: seq<byte>, s: nat, e: nat, n: nat, server: Server)
    requires n > 0 && s <= e + 1 && e < |content|
    requires AllExact(server, content, Ranges(s, e, n))
    ensures Concat(Ranges(s, e, n), server) == content[s..e + 1]
    decreases e + 1 - s
  {
    if s <= e {
      var b := ChunkEnd(s, e, n);
      assert Ranges(s, e, n) == [Bytes(s, b)] + Ranges(b + 1, e, n);
      AllExactCons(server, content, Bytes(s, b), Ranges(b + 1, e, n));
      ConcatExact(content, b + 1, e, n, server);
      ConcatExactStep(content, s, e, n, server);
    }
  }

  /** One chunk more: the first chunk's exact body before the rest. */
  lemma ConcatExactStep(content: seq<byte>, s: nat, e: nat, n: nat, server: Server)
    requires n > 0 && s <= e < |content|
    requires Exact(server, content, Bytes(s, ChunkEnd(s, e, n)))
    requires Concat(Ranges(ChunkEnd(s, e, n) + 1, e, n), server) == content[ChunkEnd(s, e, n) + 1..e + 1]
    ensures Concat(Ranges(s, e, n), server) == content[s..e + 1]
  {
    var b := ChunkEnd(s, e, n);
    var rs := Ranges(s, e, n);
    assert rs == [Bytes(s, b)] + Ranges(b + 1, e, n);
    ConcatCons(rs, server);
    assert rs[1..] == Ranges(b + 1, e, n);
    SliceSplit(content, s, b + 1, e + 1);
  }

  /** The whole content, fetched from offset 0 to its last byte. */
  lemma ConcatWhole(content: seq<byte>, n: nat, server: Server)
    requires n > 0 && |content| >= 1
    requires forall r :: r in Ranges(0, |content| - 1, n) ==> Exact(server, content, r)
    ensures Concat(Ranges(0, |content| - 1, n), server) == content
  {
    var rs := Ranges(0, |content| - 1, n);
    forall i | 0 <= i < |rs|
      ensures Exact(server, content, rs[i])
    {
      assert rs[i] in rs;
    }
    ConcatExact(content, 0, |content| - 1, n, server);
    assert content[0..|content|] == content;
  }

  lemma ConcatCons(rs: seq<Range>, server: Server)
    requires rs != []
    ensures Concat(rs, server) == BodyOf(server(Header(rs[0]))) + Concat(rs[1..], server)
  {
  }
}

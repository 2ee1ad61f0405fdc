/** The byte-range iterator both download loops use to split a resource into
    HTTP `Range` requests (`PartialRangeIter` in
    src/launcher/launcher_update.rs and, verbatim, src/minecraft/downloader.rs). */
module RangeIter {
  import opened Ints
  import opened Wrappers
  import Decimal
  import opened Text

  /** The inclusive span `first..=last` of a `Range: bytes=first-last` header. */
  datatype Range = Bytes(first: nat, last: nat)

  /** Number of bytes a range asks for. */
  function Span(r: Range): int {
    r.last - r.first + 1
  }

  /** The header value `bytes=<first>-<last>` in decimal. */
  function Header(r: Range): string {
    "bytes=" + Decimal.NatToString(r.first) + "-" + Decimal.NatToString(r.last)
  }

  /** How a server reads the header back. */
  function ParseHeader(h: string): Option<Range> {
    if |h| < 6 || h[..6] != "bytes=" then None
    else
      var rest := h[6..];
      match IndexOf(rest, '-')
      case None => None
      case Some(k) =>
        match (Decimal.ParseNat(rest[..k]), Decimal.ParseNat(rest[k + 1..]))
        case (Some(a), Some(b)) => Some(Bytes(a, b))
        case _ => None
  }

  /** A rendered header always reads back as the range it was made from. */
  lemma ParseHeaderRoundTrip(r: Range)
    ensures ParseHeader(Header(r)) == Some(r)
  {
    var a, b := Decimal.NatToString(r.first), Decimal.NatToString(r.last);
    var h := Header(r);
    var rest := h[6..];
    assert rest == a + "-" + b;
    assert rest[|a|] == '-';
    assert forall j :: 0 <= j < |a| ==> rest[j] == a[j] && Decimal.IsDigit(a[j]);
    assert IndexOf(rest, '-') == Some(|a|);
    assert rest[..|a|] == a;
    assert rest[|a| + 1..] == b;
    Decimal.ParseNatToString(r.first);
    Decimal.ParseNatToString(r.last);
  }

  /** The last byte of the chunk that starts at `s`: `s + min(n, e - s + 1) - 1`. */
  function ChunkEnd(s: nat, e: nat, n: nat): nat
    requires s <= e && n > 0
  {
    s + Min(n, e - s + 1) - 1
  }

  /** Every range a fresh iterator over `[s, e]` with buffer size `n` yields,
      in order. */
  function Ranges(s: nat, e: nat, n: nat): seq<Range>
    requires n > 0
    decreases e + 1 - s
  {
    if s > e then [] else
    var b := ChunkEnd(s, e, n);
    [Bytes(s, b)] + Ranges(b + 1, e, n)
  }

  /** The iterator's state: the next offset to request, the last byte and the
      chunk size, with the ranges it has yielded so far as ghost history. */
  class PartialRangeIter {
    var start: U64
    var end: U64
    var bufferSize: U32
    ghost var Origin: nat
    ghost var Produced: seq<Range>

    ghost predicate Valid()
      reads this
    {
      && bufferSize > 0
      && Produced + Ranges(start, end, bufferSize) == Ranges(Origin, end, bufferSize)
    }

    /** The ranges still to come. */
    ghost function Remaining(): seq<Range>
      reads this
      requires bufferSize > 0
    {
      Ranges(start, end, bufferSize)
    }

    constructor Init(start: U64, end: U64, bufferSize: U32)
      requires bufferSize > 0
      ensures Valid()
      ensures this.start == start && this.end == end && this.bufferSize == bufferSize
      ensures Origin == start && Produced == []
    {
      this.start, this.end, this.bufferSize := start, end, bufferSize;
      Origin, Produced := start, [];
    }

    /** `PartialRangeIter::new`: refuses a zero buffer size and otherwise
        stores its arguments unchanged. */
    static method New(start: U64, end: U64, bufferSize: U32) returns (r: Result<PartialRangeIter, string>)
      ensures r.Err? <==> bufferSize == 0
      ensures r.Err? ==> r.error == "invalid buffer_size, give a value greater than zero."
      ensures r.Ok? ==> fresh(r.value) && r.value.Valid() && r.value.Produced == []
      ensures r.Ok? ==> r.value.start == start && r.value.end == end && r.value.bufferSize == bufferSize
      ensures r.Ok? ==> r.value.Origin == start
    {
      if bufferSize == 0 {
        return Err("invalid buffer_size, give a value greater than zero.");
      }
      var it := new PartialRangeIter.Init(start, end, bufferSize);
      return Ok(it);
    }

    /** `Iterator::next`: `None` once `start` has passed `end`, leaving the
        state alone; otherwise the header of the next chunk and its first
        offset, after which `start` is one past that chunk. The addition
        `end - start + 1` and the update of `start` stay within 64 bits
        because `end` is below the maximum. */
    method Next() returns (item: Option<(string, U64)>)
      requires Valid()
      requires end < U64_MAX
      modifies this
      ensures Valid()
      ensures end == old(end) && bufferSize == old(bufferSize) && Origin == old(Origin)
      ensures item.None? <==> old(start) > end
      ensures item.None? ==> start == old(start) && Produced == old(Produced)
      ensures item.Some? ==>
        var r := Bytes(old(start), ChunkEnd(old(start), end, bufferSize));
        && item.value == (Header(r), old(start))
        && start == r.last + 1
        && Produced == old(Produced) + [r]
        && old(Remaining()) == [r] + Remaining()
    {
      if start > end {
        return None;
      }
      var prevStart := start;
      start := start + Min(bufferSize, end - start + 1);
      var r := Bytes(prevStart, start - 1);
      assert Ranges(prevStart, end, bufferSize) == [r] + Ranges(start, end, bufferSize);
      Produced := Produced + [r];
      return Some((Header(r), prevStart));
    }
  }

  // ---------------------------------------------------------------------
  // What the iterator yields, over the whole run

  /** Ceiling division, `n > 0`. */
  function CeilDiv(x: nat, n: nat): nat
    requires n > 0
  {
    (x + n - 1) / n
  }

  lemma DivStep(y: nat, n: nat)
    requires n > 0
    ensures (y + n) / n == y / n + 1
  {
    var q, r := y / n, y % n;
    assert y == q * n + r;
    assert y + n == (q + 1) * n + r;
    DivUnique(y + n, n, q + 1, r);
  }

  lemma MulMonotone(a: nat, b: nat, n: nat)
    requires a <= b
    ensures a * n <= b * n
  {
    var d := b - a;
    assert b * n == a * n + d * n;
  }

  /** A non-zero multiple of `n` is at least `n` away from zero. */
  lemma MulSign(d: int, n: nat)
    ensures d >= 1 ==> d * n >= n
    ensures d <= -1 ==> d * n <= -(n as int)
  {
    if d >= 1 {
      MulMonotone(1, d, n);
    } else if d <= -1 {
      MulMonotone(1, -d, n);
      assert d * n == -((-d) * n);
    }
  }

  lemma DivUnique(x: nat, n: nat, q: nat, r: nat)
    requires n > 0 && r < n && x == q * n + r
    ensures x / n == q
  {
    var q', r' := x / n, x % n;
    assert (q - q') * n == r' - r;
    MulSign(q - q', n);
  }

  lemma {:induction false} RangesCount(s: nat, e: nat, n: nat)
    requires n > 0 && s <= e + 1
    ensures |Ranges(s, e, n)| == CeilDiv(e + 1 - s, n)
    decreases e + 1 - s
  {
    var x := e + 1 - s;
    if s > e {
      assert (x + n - 1) / n == 0;
    } else if x <= n {
      assert ChunkEnd(s, e, n) == e;
      DivUnique(x + n - 1, n, 1, x - 1);
    } else {
      RangesCount(s + n, e, n);
      DivStep(x - 1, n);
    }
  }

  /** The i-th range starts at `s + i * n`. */
  lemma {:induction false} RangesOffsets(s: nat, e: nat, n: nat)
    requires n > 0
    ensures forall i :: 0 <= i < |Ranges(s, e, n)| ==> Ranges(s, e, n)[i].first == s + i * n
    decreases e + 1 - s
  {
    if s <= e {
      var b := ChunkEnd(s, e, n);
      var rs, rest := Ranges(s, e, n), Ranges(b + 1, e, n);
      RangesOffsets(b + 1, e, n);
      forall i | 0 < i < |rs|
        ensures rs[i].first == s + i * n
      {
        assert rs[i] == rest[i - 1];
        assert b + 1 == s + n;
        assert s + n + (i - 1) * n == s + i * n;
      }
    }
  }

  /** Every range is non-empty and at most `n` bytes; all but the last are
      exactly `n` bytes. */
  lemma {:induction false} RangesSizes(s: nat, e: nat, n: nat)
    requires n > 0
    ensures forall i :: 0 <= i < |Ranges(s, e, n)| ==> 1 <= Span(Ranges(s, e, n)[i]) <= n
    ensures forall i :: 0 <= i < |Ranges(s, e, n)| - 1 ==> Span(Ranges(s, e, n)[i]) == n
    decreases e + 1 - s
  {
    if s <= e {
      RangesSizes(ChunkEnd(s, e, n) + 1, e, n);
    }
  }

  /** No range reaches past `e`. */
  lemma {:induction false} RangesLastBound(s: nat, e: nat, n: nat, i: nat)
    requires n > 0 && i < |Ranges(s, e, n)|
    ensures Ranges(s, e, n)[i].last <= e
    decreases e + 1 - s
  {
    if i > 0 {
      RangesLastBound(ChunkEnd(s, e, n) + 1, e, n, i - 1);
    }
  }

  /** The ranges follow each other without gap or overlap, from `s` to `e`. */
  lemma {:induction false} RangesContiguous(s: nat, e: nat, n: nat)
    requires n > 0
    ensures forall i :: 0 <= i < |Ranges(s, e, n)| - 1 ==>
      Ranges(s, e, n)[i].last + 1 == Ranges(s, e, n)[i + 1].first
    ensures s <= e ==> |Ranges(s, e, n)| > 0
    ensures |Ranges(s, e, n)| > 0 ==> Ranges(s, e, n)[0].first == s && Ranges(s, e, n)[|Ranges(s, e, n)| - 1].last == e
    decreases e + 1 - s
  {
    if s <= e {
      var b := ChunkEnd(s, e, n);
      var rs, rest := Ranges(s, e, n), Ranges(b + 1, e, n);
      RangesContiguous(b + 1, e, n);
      forall i | 0 < i < |rs| - 1
        ensures rs[i].last + 1 == rs[i + 1].first
      {
        assert rs[i] == rest[i - 1] && rs[i + 1] == rest[i];
      }
    }
  }

  /** Some range of `rs` asks for byte `x`. */
  predicate Requested(rs: seq<Range>, x: nat) {
    exists i :: 0 <= i < |rs| && rs[i].first <= x <= rs[i].last
  }

  /** A byte offset is requested by some range exactly when it lies in `[s, e]`. */
  lemma {:induction false} RangesCover(s: nat, e: nat, n: nat, x: nat)
    requires n > 0
    ensures (s <= x <= e) <==> Requested(Ranges(s, e, n), x)
    decreases e + 1 - s
  {
    if s <= e {
      var b := ChunkEnd(s, e, n);
      var rs, rest := Ranges(s, e, n), Ranges(b + 1, e, n);
      assert rs == [Bytes(s, b)] + rest;
      RangesCover(b + 1, e, n, x);
      if s <= x <= e {
        if x > b {
          var i :| 0 <= i < |rest| && rest[i].first <= x <= rest[i].last;
          assert rs[i + 1] == rest[i];
        } else {
          assert rs[0].first <= x <= rs[0].last;
        }
      } else {
        forall i | 0 <= i < |rs|
          ensures !(rs[i].first <= x <= rs[i].last)
        {
          if i > 0 { assert rs[i] == rest[i - 1]; }
        }
      }
    }
  }

  /** The bytes covered by all the ranges, counted range by range. */
  function TotalSpan(rs: seq<Range>): int {
    if rs == [] then 0 else Span(rs[0]) + TotalSpan(rs[1..])
  }

  lemma {:induction false} RangesTotal(s: nat, e: nat, n: nat)
    requires n > 0 && s <= e + 1
    ensures TotalSpan(Ranges(s, e, n)) == e + 1 - s
    decreases e + 1 - s
  {
    if s <= e {
      var rs := Ranges(s, e, n);
      RangesTotal(ChunkEnd(s, e, n) + 1, e, n);
      assert rs[1..] == Ranges(ChunkEnd(s, e, n) + 1, e, n);
    }
  }

  /** Draining an iterator: it stops, and what it yielded is exactly the
      ranges of its initial `[start, end]`. */
  method Drain(it: PartialRangeIter) returns (headers: seq<string>)
    requires it.Valid() && it.Produced == [] && it.end < U64_MAX
    modifies it
    ensures it.Valid() && it.start > it.end
    ensures it.end == old(it.end) && it.bufferSize == old(it.bufferSize) && it.Origin == old(it.Origin)
    ensures it.Produced == Ranges(old(it.start), it.end, it.bufferSize)
    ensures |headers| == |it.Produced|
    ensures forall i :: 0 <= i < |headers| ==> headers[i] == Header(it.Produced[i])
  {
    headers := [];
    while true
      invariant it.Valid() && it.end == old(it.end) && it.bufferSize == old(it.bufferSize) && it.Origin == old(it.Origin)
      invariant it.Produced + it.Remaining() == Ranges(old(it.start), it.end, it.bufferSize)
      invariant |headers| == |it.Produced|
      invariant forall i :: 0 <= i < |headers| ==> headers[i] == Header(it.Produced[i])
      decreases |it.Remaining()|
    {
      var item := it.Next();
      if item.None? {
        break;
      }
      headers := headers + [item.value.0];
    }
    assert it.Remaining() == [];
  }
}

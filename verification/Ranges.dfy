/** Ranged downloads over WebDAV: which bytes a request asks for, and how a download written in
    pieces of any size is cut down to them. */
module Ranges {
  import opened Tables

  /** `content[start..end]`, both ends included, as far as there is content. */
  function Slice(content: Bytes, start: nat, end: int): Bytes {
    var stop := if end + 1 < |content| then end + 1 else |content|;
    if start <= stop then content[start..stop] else []
  }

  /** The connection to the client; writing may break off. */
  class Connection {
    var sent: Bytes
    /** A write has failed. */
    ghost var broken: bool

    constructor ()
      ensures sent == [] && !broken
    {
      sent, broken := [], false;
    }

    method Write(data: Bytes) returns (ok: bool)
      modifies this
      ensures old(sent) <= sent <= old(sent) + data
      ensures ok ==> sent == old(sent) + data
      ensures broken == (old(broken) || !ok)
    {
      var n: nat :| true;
      if n < |data| {
        sent, broken := sent + data[..n], true;
        return false;
      }
      sent := sent + data;
      ok := true;
    }
  }

  class SliceWriter {
    const output: Connection
    const start: nat
    const end: int
    var position: nat
    /** All that was written to this writer. */
    ghost var written: Bytes

    ghost predicate Valid()
      reads this, output
    {
      position == |written| && output.sent == Slice(written, start, end)
    }

    constructor (output: Connection, start: nat, end: int)
      requires output.sent == []
      ensures Valid() && written == []
      ensures this.output == output && this.start == start && this.end == end
    {
      this.output, this.start, this.end, position, written := output, start, end, 0, [];
    }

    /** `write`: None when the connection breaks, and then what was sent is still the beginning of
        the slice. */
    method Write(data: Bytes) returns (r: Option<nat>)
      requires Valid()
      modifies this, output
      ensures r.Some? ==> Valid() && written == old(written) + data && r.value == |data|
      ensures output.broken == (old(output.broken) || r.None?)
      ensures old(output.sent) <= output.sent <= Slice(old(written) + data, start, end)
    {
      var dataStart := position;
      var dataEnd := position + |data| - 1;
      var left := if start > dataStart then start else dataStart;
      var right := if end < dataEnd then end else dataEnd;
      SliceGrows(written, data, start, end);
      if left <= right {
        var offset := left - dataStart;
        assert 0 <= offset <= offset + right - left + 1 <= |data|;
        var ok := output.Write(data[offset..offset + right - left + 1]);
        if !ok {
          return None;
        }
      }
      position, written := position + |data|, written + data;
      r := Some(|data|);
    }
  }

  /** The bytes of a piece that begins at `at` which lie between the two ends. */
  function Overlap(at: nat, data: Bytes, start: nat, end: int): Bytes {
    var left := if start > at then start else at;
    var right := if end < at + |data| - 1 then end else at + |data| - 1;
    if left <= right then data[left - at..right - at + 1] else []
  }

  /** What one more piece adds to the slice is the part of it between the two ends. */
  lemma SliceGrows(written: Bytes, data: Bytes, start: nat, end: int)
    ensures Slice(written + data, start, end) == Slice(written, start, end) + Overlap(|written|, data, start, end)
  {
    if end < |written| {
      GrowsPast(written, data, start, end);
    } else if start <= |written| {
      GrowsWithin(written, data, start, end);
    } else {
      GrowsBefore(written, data, start, end);
    }
  }

  lemma GrowsPast(written: Bytes, data: Bytes, start: nat, end: int)
    requires end < |written|
    ensures Slice(written + data, start, end) == Slice(written, start, end)
    ensures Overlap(|written|, data, start, end) == []
  {
    if start <= end + 1 {
      CutLeft(written, data, start, end + 1);
    }
  }

  lemma GrowsWithin(written: Bytes, data: Bytes, start: nat, end: int)
    requires start <= |written| <= end
    ensures Slice(written + data, start, end) == Slice(written, start, end) + Overlap(|written|, data, start, end)
  {
    var stop := if end + 1 < |written| + |data| then end + 1 else |written| + |data|;
    CutAcross(written, data, start, stop);
    assert Slice(written, start, end) == written[start..];
    assert Overlap(|written|, data, start, end) == data[..stop - |written|];
  }

  lemma GrowsBefore(written: Bytes, data: Bytes, start: nat, end: int)
    requires |written| < start && |written| <= end
    ensures Slice(written, start, end) == []
    ensures Slice(written + data, start, end) == Overlap(|written|, data, start, end)
  {
    var stop := if end + 1 < |written| + |data| then end + 1 else |written| + |data|;
    if start <= stop {
      CutRight(written, data, start, stop);
    }
  }

  lemma CutLeft(w: Bytes, d: Bytes, a: nat, b: nat)
    requires a <= b <= |w|
    ensures (w + d)[a..b] == w[a..b]
  {
  }

  lemma CutAcross(w: Bytes, d: Bytes, a: nat, b: nat)
    requires a <= |w| <= b <= |w| + |d|
    ensures (w + d)[a..b] == w[a..] + d[..b - |w|]
  {
  }

  lemma CutRight(w: Bytes, d: Bytes, a: nat, b: nat)
    requires |w| <= a <= b <= |w| + |d|
    ensures (w + d)[a..b] == d[a - |w|..b - |w|]
  {
  }

  /** The answer to a GET: its status, the first and last byte of the range and the
      `Content-Length`. */
  datatype Answer =
    | Whole(start: nat, end: nat, length: nat)
    | Partial(start: nat, end: nat, length: nat)
    | Unsatisfiable
    | BadRequest

  /** Where the first `-` of a text is. */
  function Dash(text: string): (k: nat)
    ensures k <= |text|
    ensures k < |text| ==> text[k] == '-'
    ensures forall i :: 0 <= i < k ==> text[i] != '-'
  {
    if text == [] || text[0] == '-' then 0 else 1 + Dash(text[1..])
  }

  /** A `Range` header cut into the two texts around its dash, if it is one byte range. */
  function Cut(header: string): Option<(string, string)> {
    if !("bytes=" <= header) || ',' in header then None
    else
      var text := header[6..];
      var k := Dash(text);
      if k == |text| then None else Some((text[..k], text[k + 1..]))
  }

  /** One byte range as section 14.1.2 of RFC 9110 has it: from a first position, perhaps to a last
      one, or so many bytes at the end. */
  datatype ByteRange = From(first: int, last: Option<int>) | Suffix(length: int)

  /** The header is one byte range, with the texts `a` and `b` around its first dash. */
  predicate Spells(header: string, a: string, b: string) {
    header == "bytes=" + a + "-" + b && ',' !in header && '-' !in a
  }

  /** A header is cut at the one place where it can be. */
  lemma CutSpells(header: string)
    ensures forall a, b :: Spells(header, a, b) <==> Cut(header) == Some((a, b))
  {
    forall a, b
      ensures Spells(header, a, b) <==> Cut(header) == Some((a, b))
    {
      if Spells(header, a, b) {
        assert header[..6] == "bytes=" && header[6..] == a + "-" + b;
        DashAfter(a, b);
        assert (a + "-" + b)[..|a|] == a && (a + "-" + b)[|a| + 1..] == b;
      }
    }
  }

  lemma {:induction false} DashAfter(a: string, b: string)
    requires '-' !in a
    ensures Dash(a + "-" + b) == |a|
  {
    var text := a + "-" + b;
    assert text[|a|] == '-' && forall i :: 0 <= i < |a| ==> text[i] == a[i];
  }

  /** The range that `a` and `b` ask for. `number` is the language's own reading of a number, which
      may refuse a text or give a negative number. */
  function Asked(a: string, b: string, number: string -> Option<int>): Option<ByteRange> {
    if a != "" && b != "" && number(a).Some? && number(b).Some? then Some(From(number(a).value, number(b)))
    else if a != "" && b == "" && number(a).Some? then Some(From(number(a).value, None))
    else if a == "" && number(b).Some? then Some(Suffix(number(b).value))
    else None
  }

  /** The bytes a range means in a file of `size` bytes, if it is valid and can be satisfied: a last
      position past the end is cut back, a suffix longer than the file is all of it. */
  function Meaning(range: ByteRange, size: nat): (r: Option<(nat, nat)>)
    ensures r.Some? ==> r.value.0 <= r.value.1 < size
  {
    match range
    case From(first, last) =>
      if first < 0 || first >= size || (last.Some? && last.value < first) then None
      else if last.Some? && last.value < size then Some((first, last.value))
      else Some((first, size - 1))
    case Suffix(length) =>
      if length <= 0 || size == 0 then None
      else Some((if length > size then 0 else size - length, size - 1))
  }

  /** The one place where the program is stricter. */
  predicate EndsPast(range: ByteRange, size: nat) {
    range.From? && range.last.Some? && range.last.value >= size
  }

  /** What a client is told about a file of `size` bytes; no header is the empty text. A range is
      answered exactly when it has a meaning and does not name a last position past the end, and then
      with just the bytes it means. */
  ghost predicate RightAnswer(answer: Answer, size: nat, header: string, number: string -> Option<int>) {
    && (header == "" ==> answer == Whole(0, if size == 0 then 0 else size - 1, size))
    && (forall a, b :: Spells(header, a, b) ==>
          if Asked(a, b, number) == None then answer == BadRequest
          else
            var range := Asked(a, b, number).value;
            var meaning := Meaning(range, size);
            if meaning == None || EndsPast(range, size) then answer == Unsatisfiable
            else answer == Partial(meaning.value.0, meaning.value.1, meaning.value.1 - meaning.value.0 + 1))
    && (header != "" && (forall a, b :: !Spells(header, a, b)) ==> answer == BadRequest)
  }

  /** The range computation of `_send_file`. */
  method Measure(size: nat, header: string, number: string -> Option<int>) returns (answer: Answer)
    ensures RightAnswer(answer, size, header, number)
  {
    CutSpells(header);
    var start, end := 0, if size > 1 then size - 1 else 0;
    var partial := false;
    if header != "" {
      var cut := Cut(header);
      if cut == None {
        return BadRequest;
      }
      var left, right := cut.value.0, cut.value.1;
      if left != "" {
        var first := number(left);
        if first == None {
          return BadRequest;
        }
        start := first.value;
        end := size - 1;
        if right != "" {
          var last := number(right);
          if last == None {
            return BadRequest;
          }
          end := last.value;
        }
      } else {
        var suffix := number(right);
        if suffix == None {
          return BadRequest;
        }
        var length := suffix.value;
        start, end := if size - length > 0 then size - length else 0, size - 1;
      }
      if start < 0 || end < start || end >= size {
        return Unsatisfiable;
      }
      partial := true;
    }
    var length := if size == 0 then 0 else end - start + 1;
    answer := if partial then Partial(start, end, length) else Whole(start, end, length);
  }

  /** The pieces a download writes, one after the other. */
  function Joined(pieces: seq<Bytes>): Bytes {
    if pieces == [] then [] else Joined(pieces[..|pieces| - 1]) + pieces[|pieces| - 1]
  }

  /** `_send_file`: `pieces` is what the download writes for the path, `whole` whether it ends
      without raising. Whatever its pieces are, the body is the range of what they make together;
      a body cut short is the beginning of it. */
  method SendFile(size: nat, header: string, number: string -> Option<int>, head: bool, pieces: seq<Bytes>, whole: bool,
                  output: Connection) returns (answer: Answer, finished: bool)
    requires output.sent == [] && !output.broken
    modifies output
    ensures RightAnswer(answer, size, header, number)
    ensures (answer.Whole? || answer.Partial?) && !head && size > 0 ==> (finished <==> whole && !output.broken)
    ensures answer.Unsatisfiable? || answer.BadRequest? || head || size == 0 ==> output.sent == [] && finished
    ensures answer.Whole? || answer.Partial? ==>
      && (size > 0 ==> answer.start <= answer.end < size)
      && output.sent <= Slice(Joined(pieces), answer.start, answer.end)
      && (finished && !head && size > 0 ==> output.sent == Slice(Joined(pieces), answer.start, answer.end))
    ensures finished && !head && (answer.Whole? || answer.Partial?) && |Joined(pieces)| == size ==>
      && |output.sent| == answer.length
      && (size > 0 ==> output.sent == Joined(pieces)[answer.start..answer.end + 1])
  {
    answer := Measure(size, header, number);
    finished := true;
    if answer.Unsatisfiable? || answer.BadRequest? || head || size == 0 {
      return;
    }
    var writer := new SliceWriter(output, answer.start, answer.end);
    assert Joined(pieces[..0]) == [];
    for n := 0 to |pieces|
      invariant writer.Valid() && writer.output == output && writer.start == answer.start && writer.end == answer.end
      invariant !output.broken
      invariant fresh(writer) && writer.written == Joined(pieces[..n])
    {
      assert pieces[..n + 1][..n] == pieces[..n];
      JoinedPrefix(pieces, n + 1);
      SlicePrefix(Joined(pieces[..n + 1]), Joined(pieces), answer.start, answer.end);
      var written := writer.Write(pieces[n]);
      if written == None {
        finished := false;
        return;
      }
    }
    assert pieces[..|pieces|] == pieces;
    finished := whole;
  }

  lemma {:induction false} JoinedPrefix(pieces: seq<Bytes>, n: nat)
    requires n <= |pieces|
    ensures Joined(pieces[..n]) <= Joined(pieces)
  {
    if n < |pieces| {
      JoinedPrefix(pieces[..|pieces| - 1], n);
      assert pieces[..|pieces| - 1][..n] == pieces[..n];
    } else {
      assert pieces[..n] == pieces;
    }
  }

  lemma SlicePrefix(shorter: Bytes, longer: Bytes, start: nat, end: int)
    requires shorter <= longer
    ensures Slice(shorter, start, end) <= Slice(longer, start, end)
  {
  }

  /** The body has the announced length exactly when the file reaches the end of the range: a file
      that has become shorter since its size was taken gives less, a longer one does not matter. */
  lemma LengthAgrees(content: Bytes, start: nat, end: nat)
    requires start <= end
    ensures |Slice(content, start, end)| == end - start + 1 <==> end < |content|
  {
  }
}

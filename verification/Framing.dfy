/** The pipe reader: bytes arrive in arbitrary pieces, lines leave whole. */
module Framing {
  import opened Strings

  newtype Byte = x: int | 0 <= x < 256

  const NEWLINE: Byte := 0x0A

  /** After i bytes of the data: the lines cut off so far, and where the unfinished one starts. */
  ghost predicate Cut(data: seq<Byte>, start: nat, i: nat, lines: seq<seq<Byte>>) {
    start <= i <= |data| && lines + [data[start..i]] == Split(data[..i], NEWLINE)
  }

  lemma NothingCut(data: seq<Byte>)
    ensures Cut(data, 0, 0, [])
  {
  }

  lemma CutMore(data: seq<Byte>, start: nat, i: nat, lines: seq<seq<Byte>>)
    requires i < |data| && Cut(data, start, i, lines)
    ensures if data[i] == NEWLINE then Cut(data, i + 1, i + 1, lines + [data[start..i]])
            else Cut(data, start, i + 1, lines)
  {
    hide Split;
    assert data[..i + 1] == data[..i] + [data[i]];
    SplitMore(data[..i], data[i], NEWLINE);
    var before := Split(data[..i], NEWLINE);
    assert Front(before) == lines && Last(before) == data[start..i];
    assert data[start..i + 1] == data[start..i] + [data[i]];
    assert data[i + 1..i + 1] == [];
    assert before == lines + [data[start..i]];
  }

  class LineReader {
    var pending: seq<Byte>
    var sent: seq<seq<Byte>>
    ghost var received: seq<Byte>

    constructor ()
      ensures Valid() && received == [] && sent == [] && pending == []
    {
      pending, sent, received := [], [], [];
    }

    /** Lines sent so far and the pending tail are the newline split of the bytes received. */
    ghost predicate Valid()
      reads this
    {
      sent + [pending] == Split(received, NEWLINE)
    }

    /** One successful read of the poll timer. */
    method Receive(chunk: seq<Byte>)
      requires Valid()
      modifies this
      ensures Valid()
      ensures received == old(received) + chunk
      ensures old(sent) <= sent
    {
      SplitResumes(received, chunk, NEWLINE);
      assert Front(Split(received, NEWLINE)) == sent && Last(Split(received, NEWLINE)) == pending;
      pending := pending + chunk;
      received := received + chunk;
      EmitCompleteLines();
    }

    method EmitCompleteLines()
      modifies this`pending, this`sent
      ensures sent + [pending] == old(sent) + Split(old(pending), NEWLINE)
      ensures old(sent) <= sent
    {
      hide Split;
      var data := pending;
      var start := 0;
      NothingCut(data);
      for i := 0 to |data|
        invariant old(sent) <= sent
        invariant Cut(data, start, i, sent[|old(sent)|..])
      {
        ghost var lines := sent[|old(sent)|..];
        CutMore(data, start, i, lines);
        if data[i] == NEWLINE {
          var line := data[start..i];
          sent := sent + [line];
          start := i + 1;
          assert sent[|old(sent)|..] == lines + [line];
        }
      }
      assert data[..|data|] == data;
      pending := [];
      if start < |data| {
        pending := pending + data[start..];
      }
      assert pending == data[start..|data|];
    }

    /** Any number of reads, however the stream was cut. */
    method ReceiveAll(chunks: seq<seq<Byte>>)
      requires Valid()
      modifies this
      ensures Valid()
      ensures received == old(received) + Concat(chunks)
      ensures sent + [pending] == Split(old(received) + Concat(chunks), NEWLINE)
      ensures old(sent) <= sent
    {
      for i := 0 to |chunks|
        invariant Valid() && received == old(received) + Concat(chunks[..i]) && old(sent) <= sent
      {
        assert chunks[..i + 1][..i] == chunks[..i];
        Receive(chunks[i]);
      }
      assert chunks[..|chunks|] == chunks;
    }
  }

  function Concat(chunks: seq<seq<Byte>>): seq<Byte> {
    if chunks == [] then [] else Concat(chunks[..|chunks| - 1]) + chunks[|chunks| - 1]
  }

  /** What the other end writes: each line followed by a newline. */
  function Wire(lines: seq<seq<Byte>>): seq<Byte> {
    if lines == [] then [] else Wire(lines[..|lines| - 1]) + lines[|lines| - 1] + [NEWLINE]
  }

  /** Written lines come out as written, once each and in order, with nothing pending. */
  lemma {:induction false} WireSplits(lines: seq<seq<Byte>>)
    requires forall i :: 0 <= i < |lines| ==> NEWLINE !in lines[i]
    ensures Split(Wire(lines), NEWLINE) == lines + [[]]
  {
    if lines != [] {
      var n := |lines| - 1;
      var before := Wire(lines[..n]);
      WireSplits(lines[..n]);
      SplitResumes(before, lines[n], NEWLINE);
      assert [] + lines[n] == lines[n];
      NoSeparator(lines[n], NEWLINE);
      assert Split(before + lines[n], NEWLINE) == lines;
      SplitMore(before + lines[n], NEWLINE, NEWLINE);
    }
  }

  /** Two cuttings of one stream leave two readers in the same state. */
  lemma SameStreamSameState(sent1: seq<seq<Byte>>, pending1: seq<Byte>, sent2: seq<seq<Byte>>, pending2: seq<Byte>,
                            chunks1: seq<seq<Byte>>, chunks2: seq<seq<Byte>>)
    requires Concat(chunks1) == Concat(chunks2)
    requires sent1 + [pending1] == Split(Concat(chunks1), NEWLINE)
    requires sent2 + [pending2] == Split(Concat(chunks2), NEWLINE)
    ensures sent1 == sent2 && pending1 == pending2
  {
    var all := Split(Concat(chunks1), NEWLINE);
    assert Front(all) == sent1 && Last(all) == pending1;
    assert Front(all) == sent2 && Last(all) == pending2;
  }
}

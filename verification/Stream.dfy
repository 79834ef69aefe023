/** Relaying one upstream body to the client, chunk by chunk, through a reused buffer. */
module Stream {
  import opened Prelude

  const BUFFER_SIZE: nat := 32768

  /** What one read delivers: it never exceeds the buffer. */
  type Chunk = c: seq<byte> | |c| <= BUFFER_SIZE witness []

  /** How an upstream body ends. */
  datatype Ending = EndOfFile | Lost(reason: string)

  /** The reads of one upstream body: a read may deliver bytes together with the ending. */
  datatype Upstream =
    | More(chunk: Chunk, rest: Upstream)
    | Last(chunk: Chunk, ending: Ending)

  /** The client connection: either every write succeeds or some write fails, after part of its bytes. */
  datatype Downstream = Steady | FailsAt(write: nat, accepted: nat, reason: string)

  datatype CopyError = WriteFailed(reason: string) | ReadFailed(reason: string)

  function Bytes(u: Upstream): seq<byte> {
    match u
    case More(chunk, rest) => chunk + Bytes(rest)
    case Last(chunk, _) => chunk
  }

  function Ends(u: Upstream): Ending {
    match u
    case More(_, rest) => Ends(rest)
    case Last(_, ending) => ending
  }

  /** The chunks that are written: empty reads are skipped. */
  function Pieces(u: Upstream): seq<seq<byte>> {
    var head := if |u.chunk| > 0 then [u.chunk] else [];
    match u
    case More(_, rest) => head + Pieces(rest)
    case Last(_, _) => head
  }

  function Flatten(pieces: seq<seq<byte>>): seq<byte> {
    if pieces == [] then [] else Flatten(pieces[..|pieces| - 1]) + pieces[|pieces| - 1]
  }

  lemma {:induction false} FlattenConcat(a: seq<seq<byte>>, b: seq<seq<byte>>)
    ensures Flatten(a + b) == Flatten(a) + Flatten(b)
  {
    if b == [] {
      assert a + b == a;
    } else {
      var init := b[..|b| - 1];
      FlattenConcat(a, init);
      assert (a + b)[..|a + b| - 1] == a + init;
    }
  }

  lemma {:induction false} PiecesAreBytes(u: Upstream)
    ensures Flatten(Pieces(u)) == Bytes(u)
  {
    assert [u.chunk][..0] == [];
    assert Flatten([u.chunk]) == u.chunk;
    if u.More? {
      PiecesAreBytes(u.rest);
      FlattenConcat(if |u.chunk| > 0 then [u.chunk] else [], Pieces(u.rest));
    }
  }

  lemma FlattenSplit(pieces: seq<seq<byte>>, k: nat)
    requires k <= |pieces|
    ensures Flatten(pieces) == Flatten(pieces[..k]) + Flatten(pieces[k..])
  {
    hide Flatten;
    FlattenConcat(pieces[..k], pieces[k..]);
    assert pieces[..k] + pieces[k..] == pieces;
  }

  lemma FlattenLast(pieces: seq<seq<byte>>, k: nat)
    requires k < |pieces|
    ensures Flatten(pieces[..k + 1]) == Flatten(pieces[..k]) + pieces[k]
  {
    assert pieces[..k + 1][..k] == pieces[..k];
  }

  lemma FlattenPrefix(pieces: seq<seq<byte>>, k: nat)
    requires k < |pieces|
    ensures Flatten(pieces[..k + 1]) == Flatten(pieces[..k]) + pieces[k]
    ensures Flatten(pieces[..k + 1]) <= Flatten(pieces)
  {
    FlattenLast(pieces, k);
    hide Flatten;
    FlattenSplit(pieces, k + 1);
  }

  /** What reaches a client whose connection behaves as `down`. */
  function Delivered(u: Upstream, down: Downstream): (s: seq<byte>)
    ensures s <= Bytes(u)
  {
    var pieces := Pieces(u);
    if down.Steady? || down.write >= |pieces| then Bytes(u)
    else
      FlattenPrefix(pieces, down.write);
      PiecesAreBytes(u);
      var chunk := pieces[down.write];
      Flatten(pieces[..down.write]) + if down.accepted < |chunk| then chunk[..down.accepted] else chunk
  }

  function Outcome(u: Upstream, down: Downstream): Option<CopyError> {
    if down.FailsAt? && down.write < |Pieces(u)| then Some(WriteFailed(down.reason))
    else match Ends(u)
         case EndOfFile => None
         case Lost(reason) => Some(ReadFailed(reason))
  }

  /** After `writes` writes, `source` is what is still to be read. */
  ghost predicate Remaining(body: Upstream, writes: nat, source: Upstream) {
    && Ends(source) == Ends(body)
    && writes <= |Pieces(body)|
    && Pieces(body)[writes..] == Pieces(source)
  }

  /** Reading a nonempty chunk is the next write. */
  lemma ReadPiece(body: Upstream, writes: nat, source: Upstream)
    requires Remaining(body, writes, source) && |source.chunk| > 0
    ensures writes < |Pieces(body)| && Pieces(body)[writes] == source.chunk
    ensures Flatten(Pieces(body)[..writes + 1]) == Flatten(Pieces(body)[..writes]) + source.chunk
    ensures Pieces(body)[writes + 1..] == if source.More? then Pieces(source.rest) else []
  {
    var pieces, tail := Pieces(body), Pieces(source);
    var rest := if source.More? then Pieces(source.rest) else [];
    assert tail == [source.chunk] + rest;
    assert tail[0] == source.chunk;
    assert pieces[writes..][0] == pieces[writes];
    assert pieces[writes + 1..] == tail[1..] == rest;
    FlattenPrefix(pieces, writes);
  }

  /** When nothing is left to write, everything was written. */
  lemma AllWritten(body: Upstream, writes: nat)
    requires writes <= |Pieces(body)| && Pieces(body)[writes..] == []
    ensures writes == |Pieces(body)| && Flatten(Pieces(body)[..writes]) == Bytes(body)
  {
    assert |Pieces(body)[writes..]| == |Pieces(body)| - writes;
    assert Pieces(body)[..writes] == Pieces(body);
    PiecesAreBytes(body);
  }

  lemma WholeDelivery(body: Upstream, down: Downstream)
    ensures down.Steady? || down.write >= |Pieces(body)| ==> Delivered(body, down) == Bytes(body)
  {
  }

  /** A failing write delivers what was written before plus the accepted part of its chunk. */
  lemma CutDelivery(body: Upstream, down: Downstream, accepted: nat)
    requires down.FailsAt? && down.write < |Pieces(body)|
    requires accepted == if down.accepted < |Pieces(body)[down.write]| then down.accepted else |Pieces(body)[down.write]|
    ensures Delivered(body, down) == Flatten(Pieces(body)[..down.write]) + Pieces(body)[down.write][..accepted]
    ensures Outcome(body, down) == Some(WriteFailed(down.reason))
  {
    var chunk := Pieces(body)[down.write];
    assert chunk[..|chunk|] == chunk;
  }

  /**
   `copyStreaming`: the client receives a prefix of the upstream bytes. It returns no error
   exactly when the body ended regularly and every write succeeded, and then all bytes arrived.
   */
  method CopyStreaming(body: Upstream, down: Downstream) returns (sent: seq<byte>, err: Option<CopyError>)
    ensures sent == Delivered(body, down) && err == Outcome(body, down)
    ensures sent <= Bytes(body)
    ensures err.None? <==> Ends(body) == EndOfFile && (down.Steady? || down.write >= |Pieces(body)|)
    ensures err.None? ==> sent == Bytes(body)
  {
    assert Flatten(Pieces(body)[..0]) == [];
    hide Flatten, Bytes, Pieces, Delivered;
    var buffer := new byte[BUFFER_SIZE];
    var source := body;
    var writes := 0;
    sent := [];
    while true
      invariant Remaining(body, writes, source) && sent == Flatten(Pieces(body)[..writes])
      invariant down.FailsAt? ==> writes <= down.write
      decreases source
    {
      var chunk := source.chunk;
      var count := |chunk|;
      forall i | 0 <= i < count {
        buffer[i] := chunk[i];
      }
      assert buffer[..count] == chunk;
      if count > 0 {
        ReadPiece(body, writes, source);
        if down.FailsAt? && down.write == writes {
          var accepted := if down.accepted < count then down.accepted else count;
          CutDelivery(body, down, accepted);
          assert buffer[..accepted] == chunk[..accepted];
          sent := sent + buffer[..accepted];
          return sent, Some(WriteFailed(down.reason));
        }
        sent := sent + buffer[..count];
        writes := writes + 1;
      }
      if source.Last? {
        AllWritten(body, writes);
        WholeDelivery(body, down);
      }
      match source {
        case Last(_, EndOfFile) => return sent, None;
        case Last(_, Lost(reason)) => return sent, Some(ReadFailed(reason));
        case More(_, rest) => source := rest;
      }
    }
  }
}

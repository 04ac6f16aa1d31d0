/**
 Streaming a download into place: a temporary file that is filled, closed, and renamed, or removed.
 Every step may fail; sizes are compared in int64.
 */
module Fetch {
  import opened Prelude
  import T = Tokens

  newtype byte = b: int | 0 <= b < 256

  type Bytes = seq<byte>

  const MAX_INT64 := 0x7fff_ffff_ffff_ffff

  /**
   How a body ends: whole; broken, by a read that returns nothing else; or broken by the very read
   that returns the end of the last chunk.
   */
  datatype Ending = Whole | Broken | BrokenWithData

  /** The body as its reads return it. */
  datatype Body = Body(chunks: seq<Bytes>, ending: Ending)

  /** Write number `at` fails after so many bytes. */
  datatype Fault = NoFault | Fault(at: nat, partial: nat) {
    function Next(): Fault {
      if Fault? && at > 0 then Fault(at - 1, partial) else NoFault
    }
  }

  /**
   What the outside decides: the response (None when there is none with status 200), the name
   CreateTemp picks, the write that fails and how much it wrote, and the outcome of the other steps.
   */
  datatype World = World(
    response: Option<Body>,
    temp: Option<string>,
    writeFails: Fault,
    closes: bool, chmods: bool, renames: bool, removes: bool)

  datatype FetchError =
    | NoResponse | CreateFailed | CopyFailed | TooLarge(cap: int) | CloseFailed | ChmodFailed | RenameFailed

  function Flat(chunks: seq<Bytes>): Bytes {
    if chunks == [] then [] else chunks[0] + Flat(chunks[1..])
  }

  function Min(a: int, b: int): int {
    if a < b then a else b
  }

  /** io.LimitReader(body, maxSize+1), in int64, when there is a cap at all. */
  function Limit(maxSize: int): Option<int> {
    if maxSize > 0 then Some(T.Wrap64(maxSize + 1)) else None
  }

  /** What one read returns of a chunk. */
  function Piece(limit: Option<int>, chunk: Bytes): Bytes {
    if limit.Some? && 0 <= limit.value < |chunk| then chunk[..limit.value] else chunk
  }

  function Left(limit: Option<int>, piece: Bytes): Option<int> {
    if limit.Some? then Some(limit.value - |piece|) else None
  }

  /** The read that returns this piece of the first chunk reports a failure with it. */
  predicate FailsWith(chunks: seq<Bytes>, ending: Ending, piece: Bytes)
    requires chunks != []
  {
    |chunks| == 1 && ending.BrokenWithData? && piece == chunks[0]
  }

  /** What io.Copy writes before it stops, and whether it stops at an end of stream. */
  function Copy(chunks: seq<Bytes>, ending: Ending, limit: Option<int>, writeFails: Fault)
    : (Bytes, bool)
    decreases |chunks|
  {
    if limit.Some? && limit.value <= 0 then ([], true)
    else if chunks == [] then ([], ending.Whole?)
    else
      var piece := Piece(limit, chunks[0]);
      if writeFails.Fault? && writeFails.at == 0 then (piece[..Min(writeFails.partial, |piece|)], false)
      else if FailsWith(chunks, ending, piece) then (piece, false)
      else
        var (rest, ok) := Copy(chunks[1..], ending, Left(limit, piece), writeFails.Next());
        (piece + rest, ok)
  }

  /** The failure comes with bytes, so a copy that takes them all has met it. */
  predicate FailsWithItsLastBytes(chunks: seq<Bytes>, ending: Ending) {
    ending.BrokenWithData? && chunks != [] && chunks[|chunks| - 1] != []
  }

  /**
   A copy without a failing write copies everything up to the limit, and ends well if it gets there,
   unless the failure comes with the byte that reaches it.
   */
  lemma {:induction false} CopyReachesTheLimit(chunks: seq<Bytes>, ending: Ending, limit: int)
    requires limit >= 0
    ensures var all := Flat(chunks);
      Copy(chunks, ending, Some(limit), NoFault)
      == if |all| > limit then (all[..limit], true)
         else if |all| == limit then (all, !FailsWithItsLastBytes(chunks, ending))
         else (all, ending.Whole?)
  {
    if limit == 0 {
      EmptyChunks(chunks);
    } else if chunks == [] {
    } else {
      var n := Min(limit, |chunks[0]|);
      assert Piece(Some(limit), chunks[0]) == chunks[0][..n];
      CopyReachesTheLimit(chunks[1..], ending, limit - n);
      var all := Flat(chunks);
      assert |chunks| == 1 ==> all == chunks[0] + [] == chunks[0];
      assert |chunks| > 1 ==> chunks[1..][|chunks| - 2] == chunks[|chunks| - 1];
      if |all| > limit {
        assert all[..limit] == chunks[0][..n] + Flat(chunks[1..])[..limit - n];
      } else {
        assert all == chunks[0] + Flat(chunks[1..]);
      }
    }
  }

  lemma {:induction false} EmptyChunks(chunks: seq<Bytes>)
    ensures Flat(chunks) == [] ==> forall i | 0 <= i < |chunks| :: chunks[i] == []
  {
    if chunks == [] {
    } else {
      EmptyChunks(chunks[1..]);
    }
  }

  lemma {:induction false} CopyWithoutLimit(chunks: seq<Bytes>, ending: Ending)
    ensures Copy(chunks, ending, None, NoFault) == (Flat(chunks), ending.Whole?)
  {
    if chunks == [] {
    } else {
      CopyWithoutLimit(chunks[1..], ending);
      assert |chunks| == 1 ==> chunks[0] + Flat(chunks[1..]) == chunks[0];
    }
  }

  /** A copy that ends well has copied as much as one with no failing write, whatever was to fail later. */
  lemma {:induction false} CopyThatEndsWell(
    chunks: seq<Bytes>, ending: Ending, limit: Option<int>, writeFails: Fault)
    requires Copy(chunks, ending, limit, writeFails).1
    ensures Copy(chunks, ending, limit, writeFails) == Copy(chunks, ending, limit, NoFault)
    decreases |chunks|
  {
    if !(limit.Some? && limit.value <= 0) && chunks != [] {
      CopyThatEndsWell(chunks[1..], ending, Left(limit, Piece(limit, chunks[0])), writeFails.Next());
    }
  }

  /** Whatever goes wrong, what has been written is the beginning of the stream. */
  lemma {:induction false} CopyIsAPrefix(chunks: seq<Bytes>, ending: Ending, limit: Option<int>, writeFails: Fault)
    ensures Copy(chunks, ending, limit, writeFails).0 <= Flat(chunks)
    decreases |chunks|
  {
    if (limit.Some? && limit.value <= 0) || chunks == [] {
    } else {
      var piece := Piece(limit, chunks[0]);
      CopyIsAPrefix(chunks[1..], ending, Left(limit, piece), writeFails.Next());
      if piece != chunks[0] {
        assert limit.Some? && Left(limit, piece).value <= 0;
      }
    }
  }

  /** A write that fails before the limit is reached is an error. */
  lemma {:induction false} FailedWriteIsReported(
    chunks: seq<Bytes>, ending: Ending, limit: Option<int>, writeFails: Fault)
    requires writeFails.Fault? && writeFails.at < |chunks|
    requires limit.Some? ==> |Flat(chunks[..writeFails.at])| < limit.value
    ensures !Copy(chunks, ending, limit, writeFails).1
    decreases |chunks|
  {
    if writeFails.at == 0 {
      assert chunks[..0] == [];
    } else {
      var front, rest := chunks[..writeFails.at], chunks[1..];
      assert front[0] == chunks[0] && front[1..] == rest[..writeFails.at - 1];
      assert Flat(front) == chunks[0] + Flat(rest[..writeFails.at - 1]);
      FailedWriteIsReported(rest, ending, Left(limit, Piece(limit, chunks[0])), writeFails.Next());
    }
  }

  type Files = map<string, Bytes>

  /** os.Remove of the temporary file, which may itself fail. */
  function Cleanup(files: Files, temp: string, removes: bool): Files {
    if removes then files - {temp} else files
  }

  /** FetchTo: the directory it leaves, and the size written or the error. */
  function FetchTo(files: Files, target: string, maxSize: int, w: World): (Files, Result<nat, FetchError>) {
    match (w.response, w.temp)
    case (None, _) => (files, Failure(NoResponse))
    case (Some(_), None) => (files, Failure(CreateFailed))
    case (Some(body), Some(temp)) =>
      var (written, ok) := Copy(body.chunks, body.ending, Limit(maxSize), w.writeFails);
      var filled := files[temp := written];
      var cleaned := Cleanup(filled, temp, w.removes);
      if !ok then (cleaned, Failure(CopyFailed))
      else if maxSize > 0 && |written| > maxSize then (cleaned, Failure(TooLarge(maxSize)))
      else if !w.closes then (cleaned, Failure(CloseFailed))
      else if !w.chmods then (cleaned, Failure(ChmodFailed))
      else if !w.renames then (cleaned, Failure(RenameFailed))
      else ((filled - {temp})[target := written], Success(|written|))
  }

  /** CreateTemp makes a file that was not there. */
  predicate FreshTemp(files: Files, w: World) {
    w.temp.Some? ==> w.temp.value !in files
  }

  /** The whole body, if there is one that ends. */
  predicate Ends(w: World, whole: Bytes) {
    w.response.Some? && w.response.value.ending.Whole? && Flat(w.response.value.chunks) == whole
  }

  /** The temporary file is still there, with this content, and nothing else is different. */
  ghost predicate LeftOver(files: Files, temp: string, content: Bytes, after: Files) {
    after == files[temp := content]
  }

  /**
   All or nothing, for every stream, cap and failure: either the target holds the whole stream,
   within the cap, and nothing else has changed; or, the cleanup succeeding, nothing has changed;
   or the temporary file is left over, and every other file is as it was.
   */
  lemma FetchIsAllOrNothing(files: Files, target: string, maxSize: int, w: World)
    requires FreshTemp(files, w) && maxSize < MAX_INT64
    ensures var (after, r) := FetchTo(files, target, maxSize, w);
      && (r.Success? ==>
            && w.response.Some?
            && var whole := Flat(w.response.value.chunks);
            && Ends(w, whole)
            && after == files[target := whole] && r.value == |whole|
            && (maxSize > 0 ==> |whole| <= maxSize))
      && (r.Failure? && w.removes ==> after == files)
      && (r.Failure? && !w.removes ==>
            after == files || (w.temp.Some? && exists content :: LeftOver(files, w.temp.value, content, after)))
  {
    if w.response.Some? && w.temp.Some? {
      var body := w.response.value;
      var temp := w.temp.value;
      var (written, ok) := Copy(body.chunks, body.ending, Limit(maxSize), w.writeFails);
      assert files[temp := written] - {temp} == files;
      assert LeftOver(files, temp, written, files[temp := written]);
      if ok {
        CopyThatEndsWell(body.chunks, body.ending, Limit(maxSize), w.writeFails);
        if maxSize > 0 {
          CopyReachesTheLimit(body.chunks, body.ending, maxSize + 1);
        } else {
          CopyWithoutLimit(body.chunks, body.ending);
        }
      }
    }
  }

  /** FetchTo succeeds exactly if every step does; otherwise the first that fails is reported. */
  lemma EveryStepCounts(files: Files, target: string, maxSize: int, w: World)
    ensures
      var r := FetchTo(files, target, maxSize, w).1;
      if w.response.None? then r == Failure(NoResponse)
      else if w.temp.None? then r == Failure(CreateFailed)
      else
        var (written, ok) := Copy(w.response.value.chunks, w.response.value.ending, Limit(maxSize), w.writeFails);
        var fits := maxSize > 0 ==> |written| <= maxSize;
        && (r == Failure(CopyFailed) <==> !ok)
        && (r == Failure(TooLarge(maxSize)) <==> ok && !fits)
        && (r == Failure(CloseFailed) <==> ok && fits && !w.closes)
        && (r == Failure(ChmodFailed) <==> ok && fits && w.closes && !w.chmods)
        && (r == Failure(RenameFailed) <==> ok && fits && w.closes && w.chmods && !w.renames)
        && (r == Success(|written|) <==> ok && fits && w.closes && w.chmods && w.renames)
  {
  }

  /** Under any cap, no file but the target is ever changed; so one that was not there harms nothing. */
  lemma OnlyTheTargetChanges(files: Files, target: string, maxSize: int, w: World)
    requires FreshTemp(files, w)
    ensures var after := FetchTo(files, target, maxSize, w).0;
      forall name | name in files && name != target :: name in after && after[name] == files[name]
  {
  }

  /**
   Too large is reported exactly when the stream is larger than the cap and its copy, which stops
   one byte past the cap, meets no failure, whatever else is set to go wrong. If no write fails, the
   only failure it can meet is one that comes with the last bytes of a stream that ends right there.
   */
  lemma TooLargeIsExact(files: Files, target: string, maxSize: int, w: World)
    requires 0 < maxSize < MAX_INT64
    ensures FetchTo(files, target, maxSize, w).1 == Failure(TooLarge(maxSize)) <==>
      && w.response.Some? && w.temp.Some?
      && var body := w.response.value;
      && |Flat(body.chunks)| > maxSize
      && Copy(body.chunks, body.ending, Limit(maxSize), w.writeFails).1
    ensures w.response.Some? && w.writeFails.NoFault? ==>
      var body := w.response.value;
      var met := |Flat(body.chunks)| == maxSize + 1 && FailsWithItsLastBytes(body.chunks, body.ending);
      |Flat(body.chunks)| > maxSize ==> Copy(body.chunks, body.ending, Limit(maxSize), NoFault).1 == !met
  {
    if w.response.Some? {
      CopyReachesTheLimit(w.response.value.chunks, w.response.value.ending, maxSize + 1);
    }
    if w.response.Some? && w.temp.Some? {
      var body := w.response.value;
      if Copy(body.chunks, body.ending, Limit(maxSize), w.writeFails).1 {
        CopyThatEndsWell(body.chunks, body.ending, Limit(maxSize), w.writeFails);
      }
    }
  }

  /** When nothing goes wrong outside. */
  predicate Smooth(w: World) {
    && w.response.Some? && w.response.value.ending.Whole? && w.temp.Some? && w.writeFails.NoFault?
    && w.closes && w.chmods && w.renames
  }

  /**
   Exactly which downloads arrive when nothing goes wrong: those within the cap. The cap of
   2^63-1 is the exception: its limit wraps around, so only the empty file arrives whole.
   */
  lemma WholeStreamArrives(files: Files, target: string, maxSize: int, w: World)
    requires Smooth(w) && FreshTemp(files, w) && maxSize <= MAX_INT64
    ensures
      var whole := Flat(w.response.value.chunks);
      FetchTo(files, target, maxSize, w) == (files[target := whole], Success(|whole|)) <==>
        if maxSize <= 0 then true
        else if maxSize == MAX_INT64 then whole == []
        else |whole| <= maxSize
  {
    var body := w.response.value;
    var whole := Flat(body.chunks);
    var temp := w.temp.value;
    var (written, ok) := Copy(body.chunks, body.ending, Limit(maxSize), w.writeFails);
    assert files[temp := written] - {temp} == files;
    if maxSize <= 0 {
      CopyWithoutLimit(body.chunks, body.ending);
    } else if maxSize < MAX_INT64 {
      CopyReachesTheLimit(body.chunks, body.ending, maxSize + 1);
    } else {
      assert written == [] && ok;
      assert files[target := whole] == files[target := written] ==>
        files[target := whole][target] == files[target := written][target];
    }
  }

  /** A one-byte file under the cap of 2^63-1 arrives as an empty file, and success is reported. */
  lemma LargestCapLosesTheFile(w: World)
    requires Smooth(w) && w.response == Some(Body([[7]], Whole)) && w.temp == Some("tmp")
    ensures FetchTo(map[], "f", MAX_INT64, w) == (map["f" := []], Success(0))
  {
    var files: Files := map["tmp" := []];
    assert files - {"tmp"} == map[];
  }

  // ---------- step by step ----------

  /** What has been written, with what the rest of the copy writes, is everything. */
  ghost predicate Continues(all: (Bytes, bool), content: Bytes, rest: (Bytes, bool)) {
    all.0 == content + rest.0 && all.1 == rest.1
  }

  /** One turn of the copy. */
  lemma CopyStep(
    all: (Bytes, bool), content: Bytes, chunks: seq<Bytes>, ending: Ending, limit: Option<int>, writeFails: Fault)
    requires !(limit.Some? && limit.value <= 0) && chunks != []
    requires Continues(all, content, Copy(chunks, ending, limit, writeFails))
    ensures
      var piece := Piece(limit, chunks[0]);
      if writeFails.Fault? && writeFails.at == 0 then
        all == (content + piece[..Min(writeFails.partial, |piece|)], false)
      else if FailsWith(chunks, ending, piece) then
        all == (content + piece, false)
      else
        Continues(all, content + piece, Copy(chunks[1..], ending, Left(limit, piece), writeFails.Next()))
  {
    var piece := Piece(limit, chunks[0]);
    var rest := Copy(chunks[1..], ending, Left(limit, piece), writeFails.Next());
    assert content + (piece + rest.0) == (content + piece) + rest.0;
  }

  /** io.Copy: what has been written when it returns, and whether it returns without an error. */
  method CopyBody(body: Body, limit: Option<int>, writeFails: Fault) returns (content: Bytes, ok: bool)
    ensures
      var all := Copy(body.chunks, body.ending, limit, writeFails);
      content == all.0 && ok == all.1
  {
    ghost var all := Copy(body.chunks, body.ending, limit, writeFails);
    var left, fails := limit, writeFails;
    var i: nat := 0;
    content := [];
    assert body.chunks[0..] == body.chunks;
    while !(left.Some? && left.value <= 0) && i < |body.chunks|
      invariant i <= |body.chunks|
      invariant Continues(all, content, Copy(body.chunks[i..], body.ending, left, fails))
      decreases |body.chunks| - i
    {
      var piece := Piece(left, body.chunks[i]);
      CopyStep(all, content, body.chunks[i..], body.ending, left, fails);
      assert body.chunks[i..][1..] == body.chunks[i + 1..];
      if fails.Fault? && fails.at == 0 {
        return content + piece[..Min(fails.partial, |piece|)], false;
      }
      content := content + piece;
      if i == |body.chunks| - 1 && body.ending.BrokenWithData? && |piece| == |body.chunks[i]| {
        return content, false;
      }
      left, fails := Left(left, piece), fails.Next();
      i := i + 1;
    }
    assert Copy(body.chunks[i..], body.ending, left, fails).0 == [];
    ok := (left.Some? && left.value <= 0) || body.ending.Whole?;
  }

  class Directory {
    var files: Files

    constructor (files: Files)
      ensures this.files == files
    {
      this.files := files;
    }

    /** Client.FetchTo. */
    method Fetch(target: string, maxSize: int, w: World) returns (r: Result<nat, FetchError>)
      requires FreshTemp(files, w)
      modifies this
      ensures (files, r) == FetchTo(old(files), target, maxSize, w)
    {
      if w.response.None? {
        return Failure(NoResponse);
      }
      if w.temp.None? {
        return Failure(CreateFailed);
      }
      var temp := w.temp.value;
      files := files[temp := []];
      var limit: Option<int> := None;
      if maxSize > 0 {
        limit := Some(T.Wrap64(maxSize + 1));
      }
      var body := w.response.value;
      var content, ok := CopyBody(body, limit, w.writeFails);
      files := files[temp := content];
      assert files == old(files)[temp := content];
      var written := |content|;
      if !ok {
        files := Cleanup(files, temp, w.removes);
        return Failure(CopyFailed);
      }
      if maxSize > 0 && written > maxSize {
        files := Cleanup(files, temp, w.removes);
        return Failure(TooLarge(maxSize));
      }
      if !w.closes {
        files := Cleanup(files, temp, w.removes);
        return Failure(CloseFailed);
      }
      if !w.chmods {
        files := Cleanup(files, temp, w.removes);
        return Failure(ChmodFailed);
      }
      if !w.renames {
        files := Cleanup(files, temp, w.removes);
        return Failure(RenameFailed);
      }
      files := (files - {temp})[target := files[temp]];
      return Success(written);
    }
  }
}

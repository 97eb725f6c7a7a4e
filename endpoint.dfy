/** The `POST /results` handler end to end: resolve the body into a parameter
    record, run the simulation engine on it, write the three series under
    their artifact names, and answer with the last row of the last series
    written (the census). The engine and the file system are outside the
    model: the engine is a function parameter, the storage a mapping from file
    name to table that the handler updates in place. */
module Endpoint {
  import opened Wrappers
  import opened Values
  import opened HttpResolver
  import opened Artifacts

  /** One row of a table, column name to rendered cell. */
  type Row = map<string, string>

  /** A table as `to_csv` writes it, row by row. */
  type Frame = seq<Row>

  /** The engine's three output series. */
  datatype Projection = Projection(simSirWithDate: Frame, admits: Frame, census: Frame)

  /** The series in the order the handler writes them. */
  function Series(p: Projection): (frames: seq<Frame>)
    ensures |frames| == 3
    ensures frames[0] == p.simSirWithDate && frames[1] == p.admits && frames[2] == p.census
  {
    [p.simSirWithDate, p.admits, p.census]
  }

  /** The outcome of one request. */
  datatype Response =
    | Summary(row: Row)                // the last census row, returned as JSON
    | ResolutionFailed(error: HttpError)
    | EngineFailed                     // the engine raised on the record
    | NoLastRow                        // `iloc[-1]` on an empty census raises IndexError

  /** The files on disk, by name. Writing a name again replaces its contents. */
  class ArtifactStore {
    var files: map<string, Frame>

    constructor (initial: map<string, Frame>)
      ensures files == initial
    {
      files := initial;
    }

    method Write(name: string, frame: Frame)
      modifies this
      ensures files == old(files)[name := frame]
    {
      files := files[name := frame];
    }
  }

  /** The files after writing each frame under its name, in order. */
  function WriteAll(files: map<string, Frame>, names: seq<string>, frames: seq<Frame>): map<string, Frame>
    requires |names| == |frames|
    decreases |names|
  {
    if names == [] then files
    else WriteAll(files[names[0] := frames[0]], names[1..], frames[1..])
  }

  /** Writing a list of frames under distinct names stores each frame under its
      name and leaves every other file as it was. */
  lemma {:induction false} WriteAllStores(files: map<string, Frame>, names: seq<string>, frames: seq<Frame>)
    requires |names| == |frames|
    requires forall i, j :: 0 <= i < j < |names| ==> names[i] != names[j]
    ensures WriteAll(files, names, frames).Keys == files.Keys + set n | n in names
    ensures forall i :: 0 <= i < |names| ==> WriteAll(files, names, frames)[names[i]] == frames[i]
    ensures forall n :: n in files && n !in names ==> WriteAll(files, names, frames)[n] == files[n]
    decreases |names|
  {
    if names != [] {
      var rest := files[names[0] := frames[0]];
      WriteAllStores(rest, names[1..], frames[1..]);
      var after := WriteAll(rest, names[1..], frames[1..]);
      forall i | 0 <= i < |names|
        ensures after[names[i]] == frames[i]
      {
        if i > 0 {
          assert names[1..][i - 1] == names[i];
        } else {
          assert names[0] !in names[1..];
        }
      }
      assert (set n | n in names) == {names[0]} + set n | n in names[1..];
    }
  }

  /** Writing one more frame extends the writes so far by one. */
  lemma {:induction false} WriteAllSnoc(files: map<string, Frame>, names: seq<string>, frames: seq<Frame>, i: nat)
    requires |names| == |frames| && i < |names|
    ensures WriteAll(files, names[..i + 1], frames[..i + 1]) == WriteAll(files, names[..i], frames[..i])[names[i] := frames[i]]
    decreases i
  {
    if i > 0 {
      assert names[..i + 1][1..] == names[1..][..i];
      assert frames[..i + 1][1..] == frames[1..][..i];
      assert names[..i][1..] == names[1..][..i - 1];
      assert frames[..i][1..] == frames[1..][..i - 1];
      WriteAllSnoc(files[names[0] := frames[0]], names[1..], frames[1..], i - 1);
    }
  }

  /** The last row of a table, as `df.iloc[-1]`. */
  function LastRow(frame: Frame): (r: Option<Row>)
    ensures r.Some? <==> |frame| > 0
    ensures r.Some? ==> r.value == frame[|frame| - 1]
  {
    if |frame| == 0 then None else Some(frame[|frame| - 1])
  }

  /** One request. Resolution errors end the request before the engine runs
      or any file is written; once the engine has produced its series, all
      three files are written, and only then is the last census row taken. */
  method Results(body: Body, casts: Casts, today: Date,
                 engine: Parameters -> Option<Projection>, store: ArtifactStore)
    returns (response: Response)
    requires ValidDate(today)
    modifies store
    ensures var resolved := Resolve(body, casts, today);
      && (resolved.Failure? ==>
            response == ResolutionFailed(resolved.error) && store.files == old(store.files))
      && (resolved.Success? && engine(resolved.value).None? ==>
            response == EngineFailed && store.files == old(store.files))
      && (resolved.Success? && engine(resolved.value).Some? ==>
            var projection := engine(resolved.value).value;
            && store.files == WriteAll(old(store.files), ArtifactNames(IsoFormat(today)), Series(projection))
            && response == match LastRow(projection.census)
                           case None => NoLastRow
                           case Some(row) => Summary(row))
  {
    var resolved := Resolve(body, casts, today);
    if resolved.Failure? {
      return ResolutionFailed(resolved.error);
    }
    var parameters := resolved.value;
    AnchorByKeyPresence(body, casts, today);
    var model := engine(parameters);
    if model.None? {
      return EngineFailed;
    }
    var projection := model.value;
    var names := ArtifactNames(IsoFormat(parameters.currentDate));
    var frames := Series(projection);
    var frame := frames[0];
    for i := 0 to 3
      invariant store.files == WriteAll(old(store.files), names[..i], frames[..i])
      invariant i > 0 ==> frame == frames[i - 1]
    {
      frame := frames[i];
      WriteAllSnoc(old(store.files), names, frames, i);
      store.Write(names[i], frame);
    }
    assert names[..3] == names && frames[..3] == frames;
    // after the loop `df` is the last frame written, the census
    response := match LastRow(frame) case None => NoLastRow case Some(row) => Summary(row);
  }

  /** After a request that reached the engine, each series is stored under its
      own name and every other file is untouched. */
  lemma PublishedArtifacts(files: map<string, Frame>, today: Date, projection: Projection)
    requires ValidDate(today)
    ensures var names := ArtifactNames(IsoFormat(today));
      var after := WriteAll(files, names, Series(projection));
      && after.Keys == files.Keys + {names[0], names[1], names[2]}
      && after[names[0]] == projection.simSirWithDate
      && after[names[1]] == projection.admits
      && after[names[2]] == projection.census
      && forall n :: n in files && n !in names ==> after[n] == files[n]
  {
    var names := ArtifactNames(IsoFormat(today));
    ArtifactNamesDistinct(IsoFormat(today), 0, 1);
    ArtifactNamesDistinct(IsoFormat(today), 0, 2);
    ArtifactNamesDistinct(IsoFormat(today), 1, 2);
    WriteAllStores(files, names, Series(projection));
    assert (set n | n in names) == {names[0], names[1], names[2]};
  }
}

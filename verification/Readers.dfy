/** File reads, globs and commands, as deterministic functions of their argument. */
module Readers {
  import opened Wrappers
  import opened Observations

  datatype ReadError = ReadError(notExist: bool, what: string)

  datatype Reader = Reader(
    readFile: string -> Result<string, ReadError>,
    glob: string -> Result<seq<string>, ReadError>,
    run: seq<string> -> Result<string, ReadError>)

  /** Why a source could not be collected. */
  datatype CollectError = ReadFailed(read: ReadError) | ParseFailed(parse: ParseError)

  type CollectResult = Result<seq<Observation>, CollectError>

  /** The contents and the path of a file. */
  datatype File = File(data: string, path: string)

  const NO_PATHS := ReadError(false, "no paths provided")

  /** The first of `paths` that can be read, or the last error. */
  function FirstAvailable(r: Reader, paths: seq<string>): Result<File, ReadError> {
    if paths == [] then Failure(NO_PATHS)
    else
      match r.readFile(paths[0])
      case Success(data) => Success(File(data, paths[0]))
      case Failure(e) => if |paths| == 1 then Failure(e) else FirstAvailable(r, paths[1..])
  }

  /** Tries each path in order, as `ReadFirstAvailable` and `readParamFile` do. */
  method ReadFirstAvailable(r: Reader, paths: seq<string>) returns (file: Result<File, ReadError>)
    ensures file == FirstAvailable(r, paths)
  {
    if |paths| == 0 {
      return Failure(NO_PATHS);
    }
    var lastErr := NO_PATHS;
    for i := 0 to |paths|
      invariant i < |paths| ==> FirstAvailable(r, paths) == FirstAvailable(r, paths[i..])
      invariant i == |paths| ==> FirstAvailable(r, paths) == Failure(lastErr)
    {
      assert paths[i..][1..] == paths[i + 1..];
      var data := r.readFile(paths[i]);
      if data.Success? {
        return Success(File(data.value, paths[i]));
      }
      lastErr := data.error;
    }
    return Failure(lastErr);
  }

  /** A file is read from the first path that has it; without one the last path's error remains. */
  lemma {:induction false} FirstAvailableIsFirst(r: Reader, paths: seq<string>)
    ensures FirstAvailable(r, paths).Failure? <==> forall i :: 0 <= i < |paths| ==> r.readFile(paths[i]).Failure?
    ensures paths != [] && FirstAvailable(r, paths).Failure? ==>
              FirstAvailable(r, paths).error == r.readFile(paths[|paths| - 1]).error
    ensures FirstAvailable(r, paths).Success? ==>
              exists i :: 0 <= i < |paths| && r.readFile(paths[i]).Success?
                       && FirstAvailable(r, paths).value == File(r.readFile(paths[i]).value, paths[i])
                       && forall j :: 0 <= j < i ==> r.readFile(paths[j]).Failure?
  {
    if paths != [] && r.readFile(paths[0]).Failure? && |paths| > 1 {
      FirstAvailableIsFirst(r, paths[1..]);
      var tail := paths[1..];
      assert forall i :: 1 <= i < |paths| ==> paths[i] == tail[i - 1];
      if FirstAvailable(r, tail).Success? {
        var k :| 0 <= k < |tail| && r.readFile(tail[k]).Success?
                 && FirstAvailable(r, tail).value == File(r.readFile(tail[k]).value, tail[k])
                 && forall j :: 0 <= j < k ==> r.readFile(tail[j]).Failure?;
        assert paths[k + 1] == tail[k];
      }
    }
  }

  /** Reading the first of two paths. */
  lemma FirstOfTwo(r: Reader, a: string, b: string)
    ensures FirstAvailable(r, [a, b])
         == if r.readFile(a).Success? then Success(File(r.readFile(a).value, a))
            else if r.readFile(b).Success? then Success(File(r.readFile(b).value, b))
            else Failure(r.readFile(b).error)
  {
    assert [a, b][1..] == [b];
  }
}

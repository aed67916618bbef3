/** How one call to mosdns is classified: the only thing the protocols above learn from it. */
module Client {
  import opened Text

  /** What the call brought: no response at all, or a status and a body. readable: the body could be read; parses:
      it is one JSON value without unknown fields; trailing: more followed it. */
  datatype Response = NoResponse | Response(status: int, readable: bool, parses: bool, trailing: bool)

  datatype Result = Done | Conflict | Rejected | Unknown | Failed

  predicate IsWrite(verb: string, path: string) { (verb != "GET" && verb != "HEAD") || EndsWith(path, "/flush") }

  predicate EndsWith(s: string, suffix: string) { |s| >= |suffix| && s[|s| - |suffix|..] == suffix }

  lemma WritesExactly(verb: string, path: string)
    ensures IsWrite(verb, path) <==> !(verb in {"GET", "HEAD"}) || exists front: string :: path == front + "/flush"
  {
    if EndsWith(path, "/flush") {
      assert path == path[..|path| - 6] + "/flush";
    }
    if front: string :| path == front + "/flush" {
      assert path[|path| - 6..] == "/flush";
    }
  }

  predicate GoodBody(r: Response) { r.Response? && r.readable && r.parses && !r.trailing }

  predicate Success(r: Response) { r.Response? && 200 <= r.status < 300 }

  /** The runtime answered and refused: a client error other than a conflict. */
  predicate Refused(r: Response) { r.Response? && 400 <= r.status < 500 && r.status != 409 }

  /** request, from the moment the call is sent. A write is reported as done only on a success with a good body,
      as a conflict or a rejection only when the runtime said so, and as unknown in every other case; a read is
      never unknown. */
  method Request(verb: string, path: string, wantsBody: bool, r: Response) returns (result: Result)
    ensures result == Done <==> Success(r) && (wantsBody ==> GoodBody(r))
    ensures result == Conflict <==> r.Response? && r.status == 409
    ensures result == Rejected <==> IsWrite(verb, path) && Refused(r)
    ensures result == Unknown <==> IsWrite(verb, path) && result != Done && result != Conflict && !Refused(r)
  {
    var isWrite := IsWrite(verb, path);
    if r.NoResponse? {
      return if isWrite then Unknown else Failed;
    }
    if r.status == 409 {
      return Conflict;
    }
    if r.status < 200 || r.status >= 300 {
      if isWrite && (r.status < 400 || r.status >= 500) {
        return Unknown;
      }
      if isWrite {
        return Rejected;
      }
      return Failed;
    }
    if wantsBody {
      if !r.readable {
        return if isWrite then Unknown else Failed;
      }
      if !r.parses {
        return if isWrite then Unknown else Failed;
      }
      if r.trailing {
        return if isWrite then Unknown else Failed;
      }
    }
    result := Done;
  }
}

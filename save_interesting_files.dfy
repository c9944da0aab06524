/** The SaveInterestingFiles reporting module: `initialize` stores the
    output directory, `report` copies every file flagged as interesting on
    the blackboard into it, and `finalize` releases nothing.

    The framework services the module calls (blackboard, image database,
    file manager) are oracles bundled in `Services`; `report` returns, beside
    its status, the sequence of calls it makes on them. */
module SaveInterestingFiles {
  import opened Arguments
  import opened DestinationPaths

  datatype Status = OK | FAIL

  /** What the directory check in `initialize` observes: either some step
      of it (constructing the `Poco::File` or `Poco::Path`, creating the
      directories, asking whether the path is a directory or writable) throws
      a `std::exception`, or every step returns and the path is reported as
      a directory or not and writable or not. */
  datatype DirProbe = ProbeThrew | Created(isDirectory: bool, canWrite: bool)

  /** The part of an image-database file record the module reads. */
  datatype FileRecord = FileRecord(fileId: uint64, name: string)

  /** `getFileRecord`: fills the record, returns -1, or throws a
      `std::exception`. */
  datatype Lookup = Found(record: FileRecord) | NotFound | LookupThrew

  /** An interesting-file blackboard attribute, reduced to the object id of
      its parent artifact. */
  datatype Attribute = Attribute(parentObjectId: uint64)

  datatype Services = Services(
    interestingFiles: seq<Attribute>,             // blackboard attributes of type TSK_INTERESTING_FILE
    getFileRecord: uint64 -> Lookup,              // image database record lookup
    copyFileThrows: (uint64, string) -> bool)     // whether the file manager's copy throws a std::exception

  /** A call the module makes on the framework services. */
  datatype Call = GetAttributes | GetFileRecord(objectId: uint64) | CopyFile(fileId: uint64, path: string)

  /** What one pass of the `report` loop body does. */
  datatype Step = Step(calls: seq<Call>, threw: bool)

  function Visit(outputDir: string, separator: char, svc: Services, a: Attribute): Step
  {
    var query := [GetFileRecord(a.parentObjectId)];
    match svc.getFileRecord(a.parentObjectId)
    case LookupThrew => Step(query, true)
    case NotFound => Step(query, false)
    case Found(rec) =>
      var path := DestinationPath(outputDir, separator, rec.fileId, rec.name);
      Step(query + [CopyFile(rec.fileId, path)], svc.copyFileThrows(rec.fileId, path))
  }

  /** The body's exception was caught for attribute `i`. */
  predicate ThrewAt(outputDir: string, separator: char, svc: Services, i: nat)
    requires i < |svc.interestingFiles|
  {
    Visit(outputDir, separator, svc, svc.interestingFiles[i]).threw
  }

  /** `result` after the first `n` iterations of the loop. */
  function StatusAfter(outputDir: string, separator: char, svc: Services, n: nat): Status
    requires n <= |svc.interestingFiles|
  {
    if n == 0 then OK
    else if ThrewAt(outputDir, separator, svc, n - 1) then FAIL
    else StatusAfter(outputDir, separator, svc, n - 1)
  }

  /** The service calls made once the attributes are fetched and the first
      `n` iterations have run. */
  function CallsAfter(outputDir: string, separator: char, svc: Services, n: nat): seq<Call>
    requires n <= |svc.interestingFiles|
  {
    if n == 0 then [GetAttributes]
    else CallsAfter(outputDir, separator, svc, n - 1)
         + Visit(outputDir, separator, svc, svc.interestingFiles[n - 1]).calls
  }

  /** The record lookups among `calls`, in order. */
  function Lookups(calls: seq<Call>): seq<uint64>
  {
    if calls == [] then []
    else Lookups(calls[..|calls| - 1])
         + (if calls[|calls| - 1].GetFileRecord? then [calls[|calls| - 1].objectId] else [])
  }

  /** `c` is the copy of the record that attribute `i` resolved to, into its
      destination below `outputDir`. */
  predicate CopiesOwnRecord(outputDir: string, separator: char, svc: Services, i: nat, c: Call)
    requires i < |svc.interestingFiles|
  {
    var lookup := svc.getFileRecord(svc.interestingFiles[i].parentObjectId);
    lookup.Found?
    && c == CopyFile(lookup.record.fileId,
                     DestinationPath(outputDir, separator, lookup.record.fileId, lookup.record.name))
  }

  // ---------------------------------------------------------------------
  // The status fold

  /** `result` is FAIL exactly when some iteration caught an exception. */
  lemma {:induction false} StatusAfterFailIff(outputDir: string, separator: char, svc: Services, n: nat)
    requires n <= |svc.interestingFiles|
    ensures StatusAfter(outputDir, separator, svc, n) == FAIL
            <==> exists i :: 0 <= i < n && ThrewAt(outputDir, separator, svc, i)
  {
    if n > 0 {
      StatusAfterFailIff(outputDir, separator, svc, n - 1);
    }
  }

  /** Once FAIL, `result` is never set back to OK. */
  lemma {:induction false} StatusNeverRecovers(outputDir: string, separator: char, svc: Services, n: nat, m: nat)
    requires n <= m <= |svc.interestingFiles|
    requires StatusAfter(outputDir, separator, svc, n) == FAIL
    ensures StatusAfter(outputDir, separator, svc, m) == FAIL
  {
    if m > n {
      StatusNeverRecovers(outputDir, separator, svc, n, m - 1);
    }
  }

  /** A record lookup that returns -1 is only logged: it leaves `result`
      as it was and copies nothing. */
  lemma MissingRecordOnlyLogged(outputDir: string, separator: char, svc: Services, n: nat)
    requires n < |svc.interestingFiles|
    requires svc.getFileRecord(svc.interestingFiles[n].parentObjectId) == NotFound
    ensures StatusAfter(outputDir, separator, svc, n + 1) == StatusAfter(outputDir, separator, svc, n)
    ensures CallsAfter(outputDir, separator, svc, n + 1)
            == CallsAfter(outputDir, separator, svc, n) + [GetFileRecord(svc.interestingFiles[n].parentObjectId)]
  {
  }

  // ---------------------------------------------------------------------
  // The calls made

  lemma {:induction false} LookupsAppend(a: seq<Call>, b: seq<Call>)
    ensures Lookups(a + b) == Lookups(a) + Lookups(b)
  {
    if b != [] {
      LookupsAppend(a, b[..|b| - 1]);
      assert (a + b)[..|a + b| - 1] == a + b[..|b| - 1];
    } else {
      assert a + b == a;
    }
  }

  /** Every attribute is looked up exactly once, in index order, whether or
      not an earlier one threw. */
  lemma {:induction false} LookupsInOrder(outputDir: string, separator: char, svc: Services, n: nat)
    requires n <= |svc.interestingFiles|
    ensures var ids := Lookups(CallsAfter(outputDir, separator, svc, n));
            |ids| == n && forall i :: 0 <= i < n ==> ids[i] == svc.interestingFiles[i].parentObjectId
  {
    if n == 0 {
      assert Lookups([GetAttributes]) == Lookups([]) + [];
    } else {
      var a := svc.interestingFiles[n - 1];
      LookupsInOrder(outputDir, separator, svc, n - 1);
      LookupsAppend(CallsAfter(outputDir, separator, svc, n - 1), Visit(outputDir, separator, svc, a).calls);
      VisitLooksUpOnce(outputDir, separator, svc, a);
    }
  }

  /** One pass of the loop body looks up its own attribute, once. */
  lemma VisitLooksUpOnce(outputDir: string, separator: char, svc: Services, a: Attribute)
    ensures Lookups(Visit(outputDir, separator, svc, a).calls) == [a.parentObjectId]
  {
    var step := Visit(outputDir, separator, svc, a).calls;
    var query := [GetFileRecord(a.parentObjectId)];
    assert Lookups(query) == Lookups([]) + [a.parentObjectId];
    if step != query {
      assert step[..|step| - 1] == query;
    }
  }

  /** A copy is made only for an attribute whose record was found, with that
      record's own id, into that record's destination. */
  lemma {:induction false} CopiesComeFromRecords(outputDir: string, separator: char, svc: Services, n: nat, k: nat)
    requires n <= |svc.interestingFiles|
    requires k < |CallsAfter(outputDir, separator, svc, n)|
    requires CallsAfter(outputDir, separator, svc, n)[k].CopyFile?
    ensures exists i :: 0 <= i < n && CopiesOwnRecord(outputDir, separator, svc, i, CallsAfter(outputDir, separator, svc, n)[k])
  {
    if n > 0 {
      var before := CallsAfter(outputDir, separator, svc, n - 1);
      var c := CallsAfter(outputDir, separator, svc, n)[k];
      if k < |before| {
        CopiesComeFromRecords(outputDir, separator, svc, n - 1, k);
        assert c == before[k];
      } else {
        assert CopiesOwnRecord(outputDir, separator, svc, n - 1, c);
      }
    }
  }

  /** Conversely, every attribute whose record was found has its copy made. */
  lemma {:induction false} RecordsAreCopied(outputDir: string, separator: char, svc: Services, n: nat, i: nat)
    requires i < n <= |svc.interestingFiles|
    requires svc.getFileRecord(svc.interestingFiles[i].parentObjectId).Found?
    ensures exists k :: 0 <= k < |CallsAfter(outputDir, separator, svc, n)|
                        && CopiesOwnRecord(outputDir, separator, svc, i, CallsAfter(outputDir, separator, svc, n)[k])
  {
    var before := CallsAfter(outputDir, separator, svc, n - 1);
    var now := CallsAfter(outputDir, separator, svc, n);
    if i < n - 1 {
      RecordsAreCopied(outputDir, separator, svc, n - 1, i);
      var k :| 0 <= k < |before| && CopiesOwnRecord(outputDir, separator, svc, i, before[k]);
      assert now[k] == before[k];
    } else {
      assert CopiesOwnRecord(outputDir, separator, svc, i, now[|before| + 1]);
    }
  }

  /** Two copies of files with different ids never share a destination. */
  lemma DistinctFilesDistinctDestinations(outputDir: string, separator: char, svc: Services, n: nat, k1: nat, k2: nat)
    requires n <= |svc.interestingFiles|
    requires k1 < |CallsAfter(outputDir, separator, svc, n)| && k2 < |CallsAfter(outputDir, separator, svc, n)|
    requires CallsAfter(outputDir, separator, svc, n)[k1].CopyFile?
    requires CallsAfter(outputDir, separator, svc, n)[k2].CopyFile?
    requires CallsAfter(outputDir, separator, svc, n)[k1].fileId != CallsAfter(outputDir, separator, svc, n)[k2].fileId
    ensures CallsAfter(outputDir, separator, svc, n)[k1].path != CallsAfter(outputDir, separator, svc, n)[k2].path
  {
    var calls := CallsAfter(outputDir, separator, svc, n);
    CopiesComeFromRecords(outputDir, separator, svc, n, k1);
    CopiesComeFromRecords(outputDir, separator, svc, n, k2);
    var i1 :| 0 <= i1 < n && CopiesOwnRecord(outputDir, separator, svc, i1, calls[k1]);
    var i2 :| 0 <= i2 < n && CopiesOwnRecord(outputDir, separator, svc, i2, calls[k2]);
    var r1 := svc.getFileRecord(svc.interestingFiles[i1].parentObjectId).record;
    var r2 := svc.getFileRecord(svc.interestingFiles[i2].parentObjectId).record;
    if calls[k1].path == calls[k2].path {
      DestinationPathInjective(outputDir, separator, r1.fileId, r1.name, r2.fileId, r2.name);
    }
  }

  // ---------------------------------------------------------------------
  // The module

  /** The module's process state: the static `outputDir`. */
  class InterestingFilesModule {
    var outputDir: string

    /** A static string starts out empty. */
    constructor ()
      ensures outputDir == ""
    {
      outputDir := "";
    }

    /** An empty argument is rejected before `outputDir` is touched.
        Otherwise the argument, stripped of one leading quote and one
        trailing quote where each is present, becomes
        `outputDir` (also when the directory check then fails), and the
        result is OK exactly when the directory could be created and is a
        writable directory. A lone quote is excluded: the trailing-quote
        test would then read before the start of an empty string. */
    method Initialize(args: string, probe: string -> DirProbe) returns (status: Status)
      requires args != [Quote]
      modifies this
      ensures args == "" ==> status == FAIL && outputDir == old(outputDir)
      ensures args != "" ==> LastIndexDefined(args) && outputDir == StripQuotes(args)
      ensures args != "" ==> (status == OK <==> probe(outputDir) == Created(true, true))
    {
      if args == "" {
        return FAIL;
      }
      LastIndexDefinedExactly(args);
      outputDir := args;
      if outputDir[0] == Quote {
        outputDir := outputDir[1..];
      }
      if outputDir[|outputDir| - 1] == Quote {
        outputDir := outputDir[..|outputDir| - 1];
      }
      match probe(outputDir)
      case ProbeThrew =>
        status := FAIL;
      case Created(isDirectory, canWrite) =>
        status := if isDirectory && canWrite then OK else FAIL;
    }

    /** With no output directory the module fails without calling any
        service. Otherwise it fetches the interesting-file attributes and
        visits each in order; `result` starts OK and becomes FAIL exactly
        when some visit throws. */
    method Report(separator: char, svc: Services) returns (result: Status, calls: seq<Call>)
      ensures outputDir == "" ==> result == FAIL && calls == []
      ensures outputDir != "" ==> calls == CallsAfter(outputDir, separator, svc, |svc.interestingFiles|)
      ensures outputDir != "" ==> result == StatusAfter(outputDir, separator, svc, |svc.interestingFiles|)
      ensures outputDir != "" ==>
                (result == FAIL <==> exists i :: 0 <= i < |svc.interestingFiles| && ThrewAt(outputDir, separator, svc, i))
    {
      result := OK;
      if outputDir == "" {
        return FAIL, [];
      }
      var attributes := svc.interestingFiles;
      calls := [GetAttributes];
      for i := 0 to |attributes|
        invariant result == StatusAfter(outputDir, separator, svc, i)
        invariant calls == CallsAfter(outputDir, separator, svc, i)
      {
        var fileId := attributes[i].parentObjectId;
        calls := calls + [GetFileRecord(fileId)];
        match svc.getFileRecord(fileId)
        case Found(fileRec) =>
          var outputPath := DestinationPath(outputDir, separator, fileRec.fileId, fileRec.name);
          calls := calls + [CopyFile(fileRec.fileId, outputPath)];
          if svc.copyFileThrows(fileRec.fileId, outputPath) {
            result := FAIL;
          }
        case NotFound =>
        case LookupThrew =>
          result := FAIL;
      }
      StatusAfterFailIff(outputDir, separator, svc, |attributes|);
    }

    method Finalize() returns (status: Status)
      ensures status == OK
    {
      status := OK;
    }
  }
}

# SaveInterestingFiles reporting module, modelled in Dafny

The Sleuth Kit framework's SaveInterestingFiles module copies the files that
earlier pipeline stages flagged as interesting (blackboard attributes of type
`TSK_INTERESTING_FILE`) into an output directory. It has three entry points:

- `initialize(args)` rejects an empty argument. Otherwise it removes a
  leading quote if there is one and, independently, a trailing quote if there
  is one (the XML pipeline configuration may quote the path), stores the
  result in the module's static `outputDir`, then creates that directory and
  checks that it is a writable directory.
- `report()` fails at once when `outputDir` is empty. Otherwise it fetches the
  interesting-file attributes and, for each one in order, looks up the file
  record of the attribute's parent object. If the lookup finds the record, it
  copies the file to `outputDir + separator + fileId + "_" + name`. A lookup
  that returns -1 is only logged. An exception from any one attribute is
  caught and turns the result to FAIL, and the loop goes on with the next
  attribute.
- `finalize()` always returns OK.

The project has three files:

- `arguments.dfy` (module `Arguments`): quote stripping, as pure functions.
- `paths.dfy` (module `DestinationPaths`): decimal rendering of a file id, the
  destination path, and a parser that reads a destination back. The parser is
  what proves that destinations are unique.
- `save_interesting_files.dfy` (module `SaveInterestingFiles`): the framework
  services, the per-attribute step and the fold that specifies the `report`
  loop, the lemmas about that fold, and the class `InterestingFilesModule`.
  The class field `outputDir` models the static global. Its methods
  `Initialize`, `Report` and `Finalize` are imperative and are proved against
  the functions above.

The framework services are inputs. `Services` bundles three things: the
attribute list the blackboard returns, the image database lookup (found, -1,
or throws), and whether the file manager's copy throws for a given id and
path. Every "throws" in the model means a `std::exception`, the only kind the
source catches. The directory check in `initialize` is a `DirProbe` oracle:
either some step of it throws (`ProbeThrew`: constructing the `Poco::File` or
`Poco::Path`, `createDirectories`, `isDirectory` or `canWrite`, all inside
the one `try`), or every step returns and the probe reports whether the path
is a directory and whether it is writable. The path separator is a
parameter. `report` returns its status together with the sequence of service
calls it makes. That sequence is how the model states "never consults the
services", "each attribute once and in order" and "copies only resolved
records".

Behaviours of this revision of the module worth stating outright:

- There is no directory export, recursion or per-label subdirectory: every
  resolved record is copied flat into `outputDir`.
- A failed record lookup does not fail the run. Only a caught exception does.
- The directory is created and checked in `initialize`, not in `report`.
- An empty argument makes `initialize` return FAIL.

## Model

| member | source | states |
|---|---|---|
| `Arguments.LastIndexDefinedExactly` | SaveInterestingFilesModule.cpp:47-61 | the trailing-quote test reads a real character exactly when the argument is neither empty nor a lone quote |
| `Arguments.StripQuotes` | SaveInterestingFilesModule.cpp:57-62 | the stored directory is the argument minus one leading quote if there is one and one trailing quote if there is one; every other character is kept in order; an argument without surrounding quotes is stored verbatim |
| `Arguments.StripQuotesOfQuoted` | SaveInterestingFilesModule.cpp:58-62 | stripping undoes the configuration's quoting for every path, including paths that themselves begin or end with a quote |
| `Arguments.StripQuotesRemovesOnePair` | SaveInterestingFilesModule.cpp:59-62 | each side loses at most one quote: a doubly quoted path keeps its inner quotes (a special case of `StripQuotesOfQuoted`) |
| `DestinationPaths.Decimal` | SaveInterestingFilesModule.cpp:121 | a streamed file id is a non-empty string of decimal digits with no leading zero |
| `DestinationPaths.DecimalRoundTrip` | SaveInterestingFilesModule.cpp:121 | reading the digits back gives the id |
| `DestinationPaths.DecimalInjective` | SaveInterestingFilesModule.cpp:121 | different ids are written as different digit strings |
| `DestinationPaths.FirstUnderscoreEndsId` | SaveInterestingFilesModule.cpp:121 | in `id_name` the first underscore is the one after the id, whatever the name contains |
| `DestinationPaths.DestinationPathRoundTrip` | SaveInterestingFilesModule.cpp:120-121 | from a destination and the directory it was written below, the parser recovers the record's id and name |
| `DestinationPaths.DestinationPathInjective` | SaveInterestingFilesModule.cpp:120-123 | two records written below the same directory share a destination path string only if their ids and names are both equal |
| `SaveInterestingFiles.StatusAfterFailIff` | SaveInterestingFilesModule.cpp:96-139 | after any number of iterations, `result` is FAIL if and only if some iteration so far caught an exception |
| `SaveInterestingFiles.StatusNeverRecovers` | SaveInterestingFilesModule.cpp:96-136 | once `result` is FAIL, no later iteration sets it back to OK |
| `SaveInterestingFiles.MissingRecordOnlyLogged` | SaveInterestingFilesModule.cpp:119-131 | a lookup that returns -1 leaves `result` unchanged and adds only the lookup itself to the calls: nothing is copied |
| `SaveInterestingFiles.LookupsInOrder` | SaveInterestingFilesModule.cpp:115-119 | every attribute's record is looked up exactly once, in index order, whether or not earlier attributes threw |
| `SaveInterestingFiles.VisitLooksUpOnce` | SaveInterestingFilesModule.cpp:117-119 | one pass of the loop body looks up the record of its own attribute's parent object, exactly once, whatever the lookup returns |
| `SaveInterestingFiles.CopiesComeFromRecords` | SaveInterestingFilesModule.cpp:119-123 | every copy is made for an attribute whose lookup found a record, with that record's own id, to `outputDir`, separator, id, `_`, name |
| `SaveInterestingFiles.RecordsAreCopied` | SaveInterestingFilesModule.cpp:119-123 | every attribute whose lookup found a record has that record's copy among the calls |
| `SaveInterestingFiles.DistinctFilesDistinctDestinations` | SaveInterestingFilesModule.cpp:120-123 | two copies of files with different ids never target the same destination path string |
| `SaveInterestingFiles.InterestingFilesModule.constructor` | SaveInterestingFilesModule.cpp:32 | the static output directory starts out empty |
| `SaveInterestingFiles.InterestingFilesModule.Initialize` | SaveInterestingFilesModule.cpp:45-85 | an empty argument gives FAIL and leaves `outputDir` unchanged; otherwise `outputDir` becomes the quote-stripped argument, even when the directory check then fails, and the result is OK exactly when no step of the directory check (lines 65-68) threw and the path is a writable directory |
| `SaveInterestingFiles.InterestingFilesModule.Report` | SaveInterestingFilesModule.cpp:94-140 | an empty `outputDir` gives FAIL with no service call at all; otherwise the calls are the attribute query followed by each attribute's lookup and copy in order, and the result is FAIL exactly when some attribute's processing threw |
| `SaveInterestingFiles.InterestingFilesModule.Finalize` | SaveInterestingFilesModule.cpp:148-151 | always OK |

## Left out

- A lone `"` argument: Initialize requires `args != [Quote]`. For that argument the first erase leaves the string empty, and the trailing-quote test then reads index `size() - 1` of an empty string. The C++ behaviour there is undefined, so the model gives it no outcome.
- The Poco filesystem calls (`createDirectories`, `isDirectory`, `canWrite`) are foreign I/O. They appear only as the `DirProbe` outcome for the stripped path.
- Failures before the loop in `report` are not modelled. Obtaining the image database, file manager and blackboard from `TskServices` and the blackboard's attribute query (SaveInterestingFilesModule.cpp:106-109) run outside the `try`, so an exception there propagates out of `report` instead of becoming FAIL. `Report` always returns, and after a non-empty `outputDir` check it always records the attribute query.
- Exceptions that are not `std::exception` are not modelled. The `catch` at SaveInterestingFilesModule.cpp:132 does not catch them, so they would escape `report`.
- DestinationPathInjective: destinations are proved distinct as strings, not as resolved files. A record name that contains the separator or `..` segments can make two different strings name the same file once the filesystem resolves them.
- The framework services (`TskServices`, the blackboard query, `getFileRecord`, `copyFile`) are stateless oracles in `Services`. A real database or file manager could answer the same question differently on a second call. The model cannot express that or the files a copy creates.
- `getParentArtifact().getObjectID()` throwing is not modelled. The model does model a throwing lookup and a throwing copy, and both reach the same catch block.
- The transcoding of the path to UTF-16 (`TskUtilities::toUTF16`) is a library call. The model passes the narrow path to the copy unchanged, and it does not model a transcoding exception.
- Logging and the `wstringstream` messages are left out. They never influence control flow.
- The STOP status that `report` may return in principle is never produced by this code, so `Status` has only OK and FAIL.
- The platform separator (`Poco::Path::separator()`) is a parameter, not a constant.

# docker-clone: a verified model of its text processing and state keeping

The daemon reads Dockerfiles, keeps containers and images as small text files,
talks HTTP with its client, and starts and stops child processes. This project
models that part of the C code and proves what it keeps, over all inputs and runs
that meet the bounds each statement names, such as names that fit a buffer, a clock
of 64 bits or numbers of 32, and over every answer of the kernel.

| file | models |
|---|---|
| CText.dfy | C strings, `strstr`, `strchr`, `strtok`, `fgets`, `%d`, `sscanf` |
| Dockerfile.dfy | trimming, recognising lines, directives of a file, summary fields, validation |
| DockerfileParser.dfy | the parser as it runs: line buffer, in-place trimming, doubling array |
| DockerfileNormalForm.dfy | printing the stored instructions and parsing them again |
| DockerfileWords.dfy | the instruction words spelled out; what written files and comments mean |
| FileSystem.dfy | files and directories as a map from paths; the walk of a path |
| Builder.dfy, Build.dfy, BuildSuccess.dfy | instructions as effects on a layer; the whole build; when it succeeds |
| KeyedLines.dfy | the line format of metadata files and the `strstr`/`sscanf` reader |
| ContainerMetadata.dfy, ContainerReader.dfy | container records, printed and read back |
| Ids.dfy | identifiers made from the clock |
| Lifecycle.dfy, StepEffects.dfy, Conservation.dfy, Daemon.dfy | create, start, stop, restart, remove, list |
| CreatedRecord.dfy | the metadata file of a container line by line, and what a create stores |
| StoredTimes.dfy | times that are not set, forged and unforged |
| HttpResponse.dfy, HttpRequest.dfy, Server.dfy | responses, requests, routing, a container request end to end |
| ClientRequests.dfy | what each request of the client does, and what the client reads |
| CliParser.dfy, RunOptions.dfy | the options of `run`, and their spellings |
| ImageMetadata.dfy, ImageFile.dfy, ImageStore.dfy, CreatedImage.dfy | image records and their files, the store of names and tags, reading a created image |

Text is a C string: the bytes before the terminating NUL. What the kernel, the
clock and the shell answer are parameters, so every statement holds for all
answers. A start that waits for its child is two steps, so that other requests
may come in between.

Some of the results say where the code does not do what it is meant to do:

- the instruction after a lone backslash is lost, not joined: the result is the plain
  list of instructions exactly if no instruction has an open backslash before it
  (`Dockerfile.NothingLost`, `Dockerfile.LostLines`, `Dockerfile.LineAfterBackslashIsLost`);
- COPY and ADD never succeed (`Builder.CopyAlwaysFails`);
- a text with a quote in it, or one that is a keyword tested before its own, is not
  read back: a record whose lines the reader gets whole comes back unchanged exactly
  if none of the ten values read is such a text (`ContainerMetadata.WholeRecordReadsBack`,
  field by field `ContainerMetadata.ReadWritten`), for example a container named `id`
  (`ContainerMetadata.NameIdIsLost`); of any record, a text with a newline before its
  end or one longer than the reader's line is never read (`ContainerMetadata.ReadsOnlyLineTexts`);
- a request text can set the start time of a container that never ran, with a newline
  in it (`ContainerMetadata.ForgedStartIsRead`, `StoredTimes.CreateTakesForgedStart`) or
  without one where the reader's buffer splits a long command
  (`ContainerMetadata.SplitStartIsRead`, `StoredTimes.CreateTakesSplitStart`); over runs
  with newline-free texts and commands of at most 998 bytes both times are read as they
  are stored, set or not (`StoredTimes.TimesReadAsStored`); the state, the pid, the exit
  code, the creation time and every time the daemon has set come back from every record,
  whatever a request puts into the other fields (`ContainerMetadata.SurvivesReading`,
  `Lifecycle.StoredRecordsReadBack`);
- a waiting start looks neither at the result of `waitpid` nor at that of its last
  write, and a stop whose write fails has already reaped the child; which steps
  lose a child is stated exactly (`Conservation.StepConserves`, `Conservation.ConservedExactly`),
  with a run that does (`Conservation.OverlappingStartsOrphanAChild`) and the runs that
  do not (`Conservation.SmoothRunsLoseNoChild`, `Conservation.CarefulRunsLoseNoChild`);
- of the client's commands only the list of images and the removal of an image reach a
  handler: stop and remove are sent with methods that no handler takes, so nothing is
  stopped or removed (`ClientRequests.ClientStopIsRefused`, `ClientRequests.ClientRemoveIsRefused`),
  the list of containers, version and info have no handler (`ClientRequests.ClientListIsRefused`,
  `ClientRequests.ClientVersionAndInfoAreRefused`), and a build reaches its handler exactly if
  its name or path mentions `/images` (`ClientRequests.ClientBuildReachesHandler`); an id that
  begins with `start` is started even by stop and remove (`ClientRequests.VerbRoutedExactly`);
- requests lose their headers and body, so the client's create request is always
  refused (`HttpRequest.PrintedHeadersAreLost`, `Server.CreateIsRefused`), and with
  the body it would be refused as well (`Server.ClientBodyHasNoImage`), for its opening
  brace alone (`ClientRequests.OnlyTheBraceHidesTheImage`);
- WORKDIR and VOLUME without a leading slash, or with `/..`, make a directory outside the
  layer (`BuildSuccess.DirectoryBesideLayer`, `BuildSuccess.DirectoryBehindDots`), which the
  clean-up after the build does not reach (`BuildSuccess.BuildLeavesNoLayer`);
- removing an image leaves its layers (`ImageStore.RemoveLeavesLayers`);
- initialisation never makes the layer store, without which no image can be
  created (`ImageStore.CreateDirectoryStructure`, `ImageStore.NoLayerStoreNoImage`);
- of several environment values an empty first one loses its separator (`CliParser.EnvOfRun`).

## Model

| member | source | states |
|---|---|---|
| DockerfileWords.WordsSpelled | core/dockerfile.c:4-23 | seventeen words, given letter by letter, are recognised, each as its own kind, and no other word is |
| DockerfileWords.WrittenFile | core/dockerfile.c:112-222 | a file of instruction lines, any number of them, means exactly those instructions, each at its line |
| DockerfileWords.OneLineFiles | core/dockerfile.c:4-23 | a one-line file of `FROM x`, `RUN x` and so on is that instruction with argument x, for every x on one line that ends in text |
| DockerfileWords.OtherOneLineFiles | core/dockerfile.c:4-23 | the same of the other eight words |
| DockerfileWords.OtherWordsMeanNothing | core/dockerfile.c:136-150 | a line that begins with any other word is no instruction |
| DockerfileWords.PaddedInstruction | core/dockerfile.c:25-45 | spaces and tabs before an instruction, and spaces, tabs and carriage returns behind it, do not change it |
| DockerfileWords.CommentChangesNothing | core/dockerfile.c:116-119 | a comment line put anywhere into any file, even behind a lone backslash, changes no kind and no argument |
| DockerfileWords.LongLineIsSplit | core/dockerfile.c:112-114 | the first instruction of a longer line ends with its byte 1023 |
| DockerfileWords.SummaryByName | core/dockerfile.c:174-219 | which field holds what: base image, directory, user, shell, entrypoint and command the last argument of their kind cut at 511 bytes, the lists the first 256, 32, 256 and 256 |
| Dockerfile.TrimCutsWhitespace | core/dockerfile.c:25-45 | trimming takes blanks off the front and white space off the back, nothing else, and leaves a trimmed text |
| Dockerfile.TrimIdempotent | core/dockerfile.c:47-50 | the second trim of the continuation test changes nothing |
| DockerfileParser.SkipBlanks | core/dockerfile.c:28-35 | moving the start pointer yields the text without leading blanks |
| DockerfileParser.CutTail | core/dockerfile.c:37-44 | writing one terminator in the buffer leaves the text without trailing white space, and the bytes before it untouched |
| DockerfileParser.TrimWhitespace | core/dockerfile.c:25-45 | trimming in place: the buffer read from the returned pointer is the trimmed text |
| Dockerfile.RecognisedShape | core/dockerfile.c:136-150 | a recognised line is keyword, space, arguments that are non-empty and end in no white space |
| Dockerfile.MeaningIsGood | core/dockerfile.c:112-150 | in every file each kept argument is non-empty, on one line, NUL-free and ends in no white space |
| Dockerfile.DirectivesNameTheirLines | core/dockerfile.c:112-171 | each instruction comes from the line it names, and line numbers strictly increase |
| Dockerfile.DirectivesComplete | core/dockerfile.c:112-171 | no line that yields an instruction is left out |
| Dockerfile.PendingMeaning | core/dockerfile.c:121-140 | a continuation is open behind some lines if and only if one of them is a lone backslash followed by nothing but ignored lines |
| Dockerfile.LostLines | core/dockerfile.c:121-140 | an instruction line is missing from the result if and only if an open lone backslash precedes it |
| Dockerfile.NothingLost | core/dockerfile.c:112-171 | the result is the plain filter-map of the lines if and only if no instruction has an open lone backslash before it |
| Dockerfile.LineAfterBackslashIsLost | core/dockerfile.c:121-140 | of any instruction, a lone backslash and any second instruction only the first is in the result |
| DockerfileParser.DockerfileInfo.Append | core/dockerfile.c:152-171 | one instruction is appended; capacity stays 10 times a power of two, and all resizes together carried capacity - 10 elements, less than twice the count |
| DockerfileParser.DockerfileInfo.NoteInstruction | core/dockerfile.c:174-219 | the fields in the record change as the summary of one more instruction does |
| DockerfileParser.DockerfileInfo.TakeLine | core/dockerfile.c:135-221 | a line adds exactly its directive, if it has one, to array and summary |
| DockerfileParser.ParseDockerfile | core/dockerfile.c:76-228 | array and summary of the returned record are those of the file's directives; no file, no record |
| Dockerfile.SummaryFields | core/dockerfile.c:174-219 | text fields hold the last argument of their kind, lists the first ones up to their size |
| DockerfileParser.DockerfileInfo.Validate | core/dockerfile.c:256-289 | accepted exactly when non-empty and FROM first; warned exactly when it has both ENTRYPOINT and CMD |
| Dockerfile.FirstFromHasBase | core/dockerfile.c:267-271 | instructions that begin with FROM give a non-empty base image |
| Dockerfile.AcceptedHasBase | core/dockerfile.c:136-177 | an accepted file has a non-empty base image, that of its last FROM |
| DockerfileNormalForm.NormalForm | core/dockerfile.c:112-222 | printing and parsing again gives the same kinds and arguments if and only if no stored argument ends in white space |
| DockerfileNormalForm.NormalFormOfShortArgs | core/dockerfile.c:112-222 | with arguments of at most 511 bytes the second parse has the same words and the same summary |
| FileSystem.MkdirAddsOneDirectory | core/dockerfile.c:442-452 | making a directory adds at most one directory and changes no file |
| Builder.CopyAlwaysFails | core/dockerfile.c:402-423 | copying hands its own first token to itself and fails for every argument |
| Builder.FailureLeavesTree | core/dockerfile.c:334-380 | an instruction that fails has changed nothing, unless it is RUN |
| Builder.ExecuteFrame | core/dockerfile.c:334-549 | an instruction changes no file but its own target and the script of RUN |
| Builder.ExecuteTarget | core/dockerfile.c:425-549 | a successful instruction appends its line to its file, or makes it the file |
| Builder.InterpretTargets | core/dockerfile.c:307-317 | from any layer, each file holds what was there followed by all lines of its kind in order, or the last one |
| Builder.BuildAgreesWithSummary | core/dockerfile.c:307-380 | where the file was not there before, the appended files hold all arguments in order, of which the parsed lists are the first ones, and user, entrypoint and cmd equal the parsed fields |
| Builder.AppendedFileIsListed | core/dockerfile.c:193-216 | an appended file is exactly the summary's list if and only if the list had room and no argument was cut |
| Builder.BuiltFileIsParsedList | core/dockerfile.c:76-228 | the same for the directives of any Dockerfile text, as the parser keeps them |
| Builder.CompletedHasNoCopy | core/dockerfile.c:344-348 | a build that completes has no COPY and no ADD |
| Builder.FailedBuildKeepsPrefix | core/dockerfile.c:313-316 | a build that fails at an instruction leaves the effect of those before it; a failed RUN may also have touched its script |
| Builder.DirectoriesRemain | core/dockerfile.c:442-498 | after a build that completes every WORKDIR and VOLUME path leads to something |
| Build.Host.ExecuteInstruction | core/dockerfile.c:334-380 | the method's effect on the tree and its return value are those of the instruction, which `BuildSuccess.ExecuteSucceeds`, `Builder.ExecuteTarget` and `Builder.ExecuteFrame` characterise |
| Build.Host.RunInstructions | core/dockerfile.c:306-317 | the loop stops at the first failing instruction and returns whether there was none |
| Build.Host.BuildFromDockerfile | core/dockerfile.c:291-332 | validation, layer directory, instructions, image, clean-up, in that order and only while nothing failed |
| Build.BuildFile | core/http.c:469-477 | parsing a file and building it is the build of the file's directives, as `latest` |
| Build.BuildWritesOneMetadataFile | core/dockerfile.c:291-332 | of the metadata files a successful build writes exactly its own and a failed one changes none |
| Build.BuildMakesImage | core/dockerfile.c:319-332 | a build that succeeds makes its image exist, and the clean-up leaves it |
| Build.BuildOutcome | core/dockerfile.c:306-317 | a build that stops at instruction i fails and, if i is not RUN, leaves the effect of the instructions before it |
| BuildSuccess.TargetsSpelled | core/dockerfile.c:425-549 | which instruction writes which file of the layer, and whether it appends or overwrites |
| BuildSuccess.ExecuteSucceeds | core/dockerfile.c:334-380 | an instruction succeeds if and only if: COPY and ADD never, RUN when its script is written and made executable, WORKDIR and VOLUME when the directory can be made, the six that write when their file can be, the others always |
| BuildSuccess.RunLeavesScript | core/dockerfile.c:382-400 | RUN changes the script, where it can be written, and nothing else, whether it succeeds or not |
| BuildSuccess.DirectoryInLayer | core/dockerfile.c:442-452 | WORKDIR and VOLUME of `/name` make exactly that directory in the layer, unless something is there |
| BuildSuccess.DirectoryBesideLayer | core/dockerfile.c:442-452 | without the slash the directory is made beside the layer |
| BuildSuccess.DirectoryBehindDots | core/dockerfile.c:488-498 | behind `/..` it is made outside the layer, behind `/.` inside |
| BuildSuccess.RunCompletesExactly | core/dockerfile.c:307-317 | when nothing is refused from outside and directories are plain names, a run of any length completes if and only if it has no COPY and no ADD, every RUN gets its script, and no directory stands where a file is written; outside the layer it changes nothing |
| BuildSuccess.RejectedBuild | core/dockerfile.c:295-304 | a file that does not begin with FROM, or a layer directory that cannot be made, leaves the tree as it was |
| BuildSuccess.BuildSucceedsExactly | core/dockerfile.c:291-332 | under the same conditions a build succeeds if and only if it begins with FROM, its run completes and the image store has its directories and nothing in the way; then the image exists |
| BuildSuccess.BuildLeavesNoLayer | core/dockerfile.c:326-331 | after a successful build nothing at or below the layer directory is left, and nothing else is touched |
| BuildSuccess.FailedBuildIsNotCleaned | core/dockerfile.c:312-324 | a build that fails is not cleaned up |
| BuildSuccess.FromFileBuilds | core/dockerfile.c:336-339 | the file `FROM x`, for every base x, builds if and only if the image store is ready |
| KeyedLines.WordsOfField | core/container.c:171-191 | a quoted keyword occurs in a printed field exactly as its key or inside its quoted value, whatever the value |
| KeyedLines.PrintedAssigns | core/container.c:169-192 | a field on one line assigns its own slot the value up to its first quote, unless that is empty or the value holds an earlier quoted keyword, and no other slot |
| KeyedLines.RecordRead | core/container.c:169-192 | after a text whose lines the reader gets whole a slot holds its value up to the first quote, unless that is empty or the value holds an earlier quoted keyword; then what it held before |
| KeyedLines.ScanPrinted | core/container.c:171-191 | of a field on one line the scan takes the value up to its first quote, all of it if and only if it is not empty and has no quote |
| KeyedLines.FieldIsSilent | core/container.c:169-192 | a field with a quote-free value of any length, even of many lines, is never taken for another field |
| KeyedLines.LastFieldDecides | core/container.c:169-192 | whatever stands before it, even forged fields, a short plain field decides its slot when only silent lines follow |
| KeyedLines.ForgedFieldIsRead | core/container.c:134-191 | a value with a newline and a field behind it sets that field's slot when only silent lines follow |
| KeyedLines.SplitFieldIsRead | core/container.c:160-191 | so does a newline-free value with a field where the buffer splits the line |
| ContainerMetadata.ReadWritten | core/container.c:112-196 | that law for each of the ten read fields of a container whose lines the reader gets whole, whatever the unread fields hold |
| ContainerMetadata.RoundTrip | core/container.c:112-196 | where the reader gets every line whole, reading into a zeroed record restores all ten fields if and only if none of them has a quote or is a keyword tested before its own |
| ContainerMetadata.NameIdIsLost | core/container.c:171-174 | a container named `id` keeps whatever name the record had before |
| ContainerMetadata.TimesAreKept | core/container.c:183-188 | a printed time is never captured |
| ContainerMetadata.WholeRecordReadsBack | core/container.c:112-196 | a record whose lines the reader gets whole comes back unchanged if and only if none of the ten values read has a quote or is a keyword tested before its own |
| ContainerMetadata.ReadsOnlyLineTexts | core/container.c:160-192 | of any record only quote-free texts are read that are shorter than the buffer and have a newline at most at their end |
| ContainerMetadata.SurvivesReading | core/container.c:134-196 | state, pid, exit code and every time that is set are read back from every record, whatever its name, command and other request texts hold |
| ContainerMetadata.UnsetExactly | core/container.c:160-188 | a read start or finish time is unset if and only if no line of the text is taken for it |
| ContainerMetadata.UnsetStaysUnset | core/container.c:112-188 | where the reader gets every line whole, a time that is not set is read as not set |
| ContainerMetadata.ForgedStartIsRead | core/container.c:112-185 | a request text with a newline and a start time behind it is read as the start of a container that has none |
| ContainerMetadata.SplitStartIsRead | core/container.c:112-185 | so is a newline-free command with a start time where the buffer splits its line |
| ContainerReader.Branch | core/container.c:171-191 | the chain of tests picks the first keyword that occurs |
| ContainerReader.ContainerRecord.AbsorbLine | core/container.c:170-192 | one line changes at most the field of the branch taken |
| ContainerReader.ContainerRecord.ReadContainerMetadata | core/container.c:157-196 | the loop leaves what reading the text leaves; it fails exactly when there is no file |
| Ids.IdDecodes | core/container.c:41-46 | a generated id determines its second, for every non-negative 64-bit time |
| Ids.DistinctSecondsDistinctIds | core/container.c:41-46 | different seconds give different ids |
| Ids.IdSurvivesFileName | core/container.c:474-476 | the stem of `<id>.json` is the id |
| Lifecycle.StepKeepsTidy | core/container.c:60-426 | every step, for any texts and whatever fails, leaves only records whose state, pid, exit code, creation time and set times can be read back |
| Lifecycle.StoredRecordsReadBack | core/container.c:60-426 | after any run, reading any stored record gives its state, pid, exit code, creation time, and its start and finish times once they are set |
| StoredTimes.CreateTakesForgedStart | core/container.c:60-110 | a create with such a name succeeds, stores no start time, and the reader gives the forged one |
| StoredTimes.CreateTakesSplitStart | core/container.c:60-110 | so does a create with such a newline-free command |
| StoredTimes.TimesReadAsStored | core/container.c:60-426 | after any run whose creates bring in newline-free texts and commands of at most 998 bytes, quotes or not, start and finish time of every record are read as stored, set or not |
| Lifecycle.StepKeepsSound | core/container.c:60-426 | every step, whatever fails in it, keeps the state and times of all records in order |
| Lifecycle.LifecycleFromStart | core/container.c:60-426 | over every clocked run records are CREATED without pid and times, RUNNING with a start, or EXITED with created <= started <= finished |
| Conservation.StepConserves | core/container.c:198-426 | a step keeps live children and RUNNING records in one-to-one correspondence if and only if it is safe: no create over a RUNNING record, no finishing start that reaps a child its record does not run, reaps without writing, or writes over a RUNNING record without reaping, no stop whose write fails |
| Conservation.ConservedExactly | core/container.c:198-426 | the correspondence holds all along a run if and only if each of its steps is safe |
| Conservation.EveryChildAccountedFor | core/container.c:229-266 | over every run of safe steps each child is run by exactly one record, or was waited for once, or was killed unwaited |
| Conservation.OwnChildrenAreReaped | core/container.c:254-263 | when no pid is reused while a start waits for it, a finishing start that reaps always reaps the child its record runs |
| Conservation.LaterSecondsAreSafe | core/container.c:41-46 | creates that come in later seconds than those before them are safe |
| Conservation.CarefulRunsLoseNoChild | core/container.c:198-372 | from the empty store, when creates come in later seconds, awaited pids are not reused, stops write, and a finishing start that reaps writes and one that does not reap writes over no RUNNING record, every child is accounted for |
| Conservation.SmoothRunsLoseNoChild | core/container.c:198-372 | from the empty store, when creates come in later seconds, awaited pids are not reused, and waits and final writes succeed, every child is accounted for |
| Conservation.RemoveSparesRunning | core/container.c:382-416 | judging by the text it reads, whatever a request put there, remove takes at most the record it names and never a RUNNING one |
| Conservation.RepeatedId | core/container.c:60-110 | a create keeps children conserved if and only if it fails or the record under its id is not RUNNING |
| Conservation.UncheckedWait | core/container.c:256-263 | a finishing start keeps children conserved if and only if it reaped the child its record still runs and wrote, or did not reap and either did not write or wrote over a record that is not RUNNING |
| Conservation.FailedStopWrite | core/container.c:350-368 | a stop keeps children conserved if and only if, when it stopped a RUNNING container, its write succeeded |
| Conservation.OverlappingStartsOrphanAChild | core/container.c:254-267 | a run of five requests after which a live child has no record |
| StepEffects.CreateExactly | core/container.c:60-110 | a create that succeeds stores one CREATED record under its id and changes nothing else; one that fails changes nothing |
| StepEffects.BeginExactly | core/container.c:198-253 | result, child, record and wait of a start: it fails without effect on a missing or RUNNING record or without a child, kills the child when the record cannot be written, and otherwise leaves the record RUNNING with its pid and start time |
| StepEffects.EndExactly | core/container.c:254-267 | a finishing start reaps its child if the wait succeeds and, if it can write, leaves EXITED with the status and the time, reaped or not |
| StepEffects.StopExactly | core/container.c:328-372 | a stop reaps the child of a RUNNING record that can be signalled and awaited, and succeeds if and only if it then writes EXITED with the status |
| StepEffects.RemoveExactly | core/container.c:382-426 | a remove takes exactly its record away, if and only if that is there and not RUNNING and its files can be removed; it reports success if the log goes too |
| StepEffects.RemovedIsGone | core/container.c:382-426 | after any run and a remove that succeeds, start, stop and remove of that container fail and change nothing |
| StepEffects.WholeLife | core/container.c:60-426 | after any run, a new container created, started, stopped and removed with nothing refused succeeds in every step, and leaves every other record as it was and its own child reaped |
| CreatedRecord.FileSpelled | core/container.c:112-155 | the metadata file of any record is these 31 lines, keys letter by letter |
| CreatedRecord.CreateStores | core/container.c:60-110 | which argument of a create goes where in the stored record, cut at which length, with which default |
| Ids.HexSpelled | core/container.c:44 | `%x` prints the most significant digit first and letters from ten on |
| Ids.IdSpelled | core/container.c:41-46 | the low half of the time comes first in the id |
| Daemon.Daemon.CreateContainer | core/container.c:60-110 | the state after create and its result are those of the step |
| Daemon.Daemon.BeginStart | core/container.c:198-253 | start up to its wait is the step, and it waits exactly when not detached |
| Daemon.Daemon.FinishStart | core/container.c:254-267 | the rest of a waiting start is the step |
| Daemon.Daemon.StartContainer | core/container.c:198-268 | start without interruption is both steps, or the first alone when it fails or is detached |
| Daemon.Daemon.StopContainer | core/container.c:328-372 | stop is the step, with its error returns |
| Daemon.Daemon.RestartContainer | core/container.c:374-380 | restart is a stop and, only if it succeeded, a start |
| Daemon.Daemon.RemoveContainer | core/container.c:382-426 | remove is the step, with its error returns; what the step takes is `StepEffects.RemoveExactly` |
| Daemon.Daemon.ListContainers | core/container.c:428-490 | the list holds, in directory order, the record of each entry that is read |
| Daemon.ListingIsComplete | core/container.c:470-483 | with one file per container and generated ids the listing reads each container exactly once |
| Daemon.ListingAfterRun | core/container.c:428-490 | after any run from the empty store, with one file per container, the listing reads each container exactly once |
| Daemon.ListingKeepsOrder | core/container.c:470-483 | the listing keeps the order of the directory |
| Daemon.BackupIsListed | core/container.c:470-483 | any file whose name goes on behind `<id>.json` is read as that container once more |
| HttpResponse.HttpResponse.Create | core/http.c:188-209 | the struct formats to the message of that code, text and body, with the body's length |
| HttpResponse.HttpResponse.Send | core/http.c:211-235 | what is sent is the formatted struct, bounded by the buffer |
| HttpResponse.FramedSeam | core/http.c:216-225 | the first blank line ends the headers if and only if the first line makes none of its own |
| HttpResponse.ResponseRoundTrip | core/client.c:81-103 | parsing the response returns the code, and the body if and only if the status message contains no header end; bodies may contain blank lines |
| HttpResponse.DeclaredLengthIsBodyLength | core/http.c:202-206 | the declared length is the length of the body |
| HttpResponse.MessageSpelled | core/http.c:211-228 | the text of a response: status line, three headers, a blank line, the body |
| HttpResponse.TruncatedIsRefused | core/client.c:84-98 | a response cut off before the end of its headers is refused by the client |
| ClientRequests.RequestSpelled | core/client.c:65-79 | the text of a request that fits the buffer |
| ClientRequests.FourWords | core/http.c:143-155 | what stands behind the third word of the request line is left to the header loop |
| ClientRequests.LeftoverIsHeader | core/http.c:159-173 | and taken for a header, and for the body's length if it looks like one |
| HttpRequest.PrintedLineParsed | core/client.c:65-79 | method and URL of a printed request line are parsed back |
| HttpRequest.PrintedHeadersAreLost | core/http.c:159-182 | of a printed request the daemon sees neither headers nor a length |
| HttpRequest.ParseHttpRequest | core/http.c:131-186 | the request line's words, and only the rest of that line as headers; the body is always empty |
| HttpRequest.NextSegment | core/http.c:237-287 | a substring test on a path looks at its head or behind its first segment |
| HttpRequest.ContainerTests | core/http.c:255-262 | a one-word test succeeds exactly when the id or the verb begins with the word |
| HttpRequest.IdExtracted | core/http.c:558-579 | the id between the slashes is cut out of the URL |
| HttpRequest.ContainerRequestReachesHandler | core/http.c:237-262 | printed, parsed and routed, a verb's own handler gets exactly the id if and only if the id begins with neither `json` nor an earlier verb |
| HttpRequest.GeneratedIdsReachTheirHandlers | core/container.c:41-46 | every generated id reaches the handler of every verb |
| HttpRequest.ImageDeleteReachesHandler | core/http.c:274-287 | DELETE of an image name reaches removal with exactly that name, except names that begin with `containers`, which get 404 |
| Server.ImageAlone | core/http.c:304-321 | a create body has an image if and only if it begins with the image key and a text, and then command, directory, environment, ports and volumes are lost |
| Server.ClientBodyHasNoImage | core/client.c:122-133 | in the body the client prints, for any arguments, the daemon finds no image |
| Server.HandleContainersApi | core/http.c:253-405 | the daemon takes the routed step, of a create only with an image, and the response is filled with the reply that tells its result; step and reply of each request are stated in `ClientRequests` |
| Server.HandleClient | core/http.c:84-129 | from request text to response text: parse, route, handle, format |
| Server.CreateIsRefused | core/client.c:105-150 | whatever its body, the client's create request leaves the state as it is and the client reads 400 |
| Server.ClientSeesOutcome | core/http.c:350-405 | from request line to parsed response the client reads 204 exactly when the step succeeded |
| ClientRequests.OnlyGetActs | core/http.c:253-272 | a container request with any method but GET changes nothing, and the client reads 400 for POST to create and 404 for every other |
| ClientRequests.OtherUrlsUnknown | core/http.c:237-251 | a request whose URL has neither `/containers` nor `/images` changes nothing and is answered 404 |
| ClientRequests.TwoWordsAreNoRequest | core/http.c:99-106 | a request line of two words changes nothing and is answered 400 |
| ClientRequests.VerbRefused | core/http.c:253-272 | start, stop and remove of any id with another method than GET change nothing |
| ClientRequests.ClientStopIsRefused | core/client.c:318-330 | the client's stop, POST, changes nothing and reads 404 |
| ClientRequests.ClientRemoveIsRefused | core/client.c:369-381 | the client's remove, DELETE, changes nothing and reads 404 |
| ClientRequests.ClientListIsRefused | core/client.c:268-280 | the client's list of containers reads 404 |
| ClientRequests.ClientVersionAndInfoAreRefused | core/client.c:489-570 | version and info read 404 |
| ClientRequests.ClientBuildReachesHandler | core/client.c:177-185 | the client's build reaches the build handler if and only if its name or path mentions `/images` and not `/containers` |
| ClientRequests.ClientBuildIsRefused | core/client.c:177-185 | otherwise, without `/containers`, it reads 404 |
| ClientRequests.VerbRoutedExactly | core/http.c:253-262 | which handler GET of a verb reaches, for every id |
| ClientRequests.GetStart | core/http.c:350-367 | GET of start is the begin step and, when it waits, the end step; the client reads 204 or 500 as it went |
| ClientRequests.GetStop | core/http.c:369-386 | GET of stop is the stop step, and the client reads how it went |
| ClientRequests.GetRemove | core/http.c:388-405 | GET of remove is the remove step, and the client reads how it went |
| ClientRequests.LongIdIsRefused | core/http.c:558-579 | an id of 256 bytes or more changes nothing and reads 400 |
| ClientRequests.ArgsOfImageBody | core/http.c:304-334 | which arguments reach create for a body that begins with an image, the three flags among them |
| ClientRequests.CreateWithImage | core/http.c:336-347 | such a body takes the create step, and the reply is 201 exactly when it succeeds |
| ClientRequests.ImageRequestsRouted | core/http.c:274-291 | for every method and name, which requests for `/images/<name>` are builds and which are listings |
| ClientRequests.ClientImagesReachesHandler | core/client.c:226-238 | the client's list of images reaches its handler |
| ClientRequests.OnlyTheBraceHidesTheImage | core/client.c:122-133 | without its opening brace the client's body would give the daemon its image |
| CliParser.ParsedCommand.Turn | core/cli-parser.c:76-117 | one turn of the loop consumes one option group and keeps the meaning of the rest |
| CliParser.ParsedCommand.ParseRunCommand | core/cli-parser.c:75-118 | the loop computes the fold over option groups, for all arguments; their spellings are those of `RunOptions` |
| CliParser.ScalarsAreLastWins | core/cli-parser.c:86-106 | name, port, volume and working directory hold the last value before the command |
| CliParser.FlagsAreOred | core/cli-parser.c:77-85 | a flag is set exactly when some group before the command sets it |
| CliParser.WordsAreImageAndCommand | core/cli-parser.c:107-116 | the image is the first non-empty word, the command the next word |
| CliParser.EnvOfRun | core/cli-parser.c:96-102 | the environment is the `;`-join of all values if and only if there is at most one or the first is not empty |
| CliParser.SwapChangesNothing | core/cli-parser.c:75-118 | swapping neighbouring groups of different options changes nothing |
| CliParser.TrailingArgumentsIgnored | core/cli-parser.c:111-115 | whatever follows the command is ignored |
| RunOptions.OptionsSpelled | core/cli-parser.c:86-106 | which argument spells which option with a value, both ways |
| RunOptions.FlagsSpelled | core/cli-parser.c:77-85 | which argument spells which flag, both ways |
| RunOptions.OptionLands | core/cli-parser.c:75-118 | one option, by any of its spellings, and an image: the value is in its own field, cut to its buffer, and every other field is empty |
| RunOptions.FlagLands | core/cli-parser.c:75-118 | the same of one flag, an image and a command |
| RunOptions.TwoValues | core/cli-parser.c:96-102 | two environment values are joined with a semicolon unless the first is empty |
| RunOptions.UnknownOptionIgnored | core/cli-parser.c:107 | any other argument that begins with a dash is passed over |
| RunOptions.OptionAtEnd | core/cli-parser.c:86-106 | an option at the end without its value changes nothing |
| ImageMetadata.BehindInert | core/image.c:165-181 | no config line, whatever it holds, and no line of a quote-free layer id can be taken for a field |
| ImageMetadata.RoundTrip | core/image.c:140-216 | for any number of quote-free layer ids, where the reader gets every line whole, reading restores all five fields if and only if none of them has a quote or is a keyword tested before its own |
| ImageMetadata.ImageRecord.AbsorbLine | core/image.c:200-212 | one line changes at most the field of the branch taken |
| ImageMetadata.ImageRecord.ReadImageMetadata | core/image.c:187-216 | the loop leaves what reading the text leaves; it fails exactly when there is no file |
| ImageStore.FullNameInjective | core/image.c:50-58 | with colon-free tags the full name determines name and tag, empty meaning latest |
| ImageStore.ImageExistsMeaning | core/image.c:60-68 | an image exists exactly when its file does, in an existing directory |
| ImageStore.CreateMakesImage | core/image.c:233-279 | a successful create makes the image exist with its own record as text |
| ImageStore.CreateKeepsOthers | core/image.c:233-279 | create leaves every other name and tag as it was |
| ImageStore.CreateSucceedsExactly | core/image.c:70-118 | which places decide whether a create succeeds, among them the layer store |
| ImageStore.CreateLeavesLayer | core/image.c:70-118 | a successful create leaves the layer directory, what was copied into it, and its metadata |
| ImageStore.FailedCreateLeavesLayer | core/image.c:233-279 | a create that fails after its layer directory is made leaves that directory |
| ImageFile.FileSpelled | core/image.c:140-185 | the metadata file of any image with any number of layers is these lines, keys letter by letter |
| ImageFile.CreatedFile | core/image.c:233-279 | path and whole text of the file that a successful create leaves |
| CreatedImage.NewImageFits | core/image.c:140-183 | the reader gets every line of a new image whole when name and tag have no newline |
| CreatedImage.CreatedImageReadsBack | core/image.c:187-279 | reading the file that a successful create leaves restores all five fields if and only if name and tag have no quote, the name is not `id` and the tag neither `id` nor `name` |
| ImageStore.RemoveForgetsImage | core/image.c:362-383 | a successful remove was of an existing image, which then does not exist |
| ImageStore.RemoveKeepsOthers | core/image.c:362-383 | remove leaves every other name and tag as it was |
| ImageStore.RemoveImageExactly | core/image.c:362-383 | a remove takes the metadata file and whatever stands under the image's full name among the layers, and nothing else; when it succeeds |
| ImageStore.RemoveLeavesLayers | core/image.c:362-383 | no layer that create made is ever removed |
| ImageStore.CreateDirectoryStructure | core/image.c:12-34 | initialisation makes the first and then the third directory, fails exactly if one of them cannot be made, leaves the first when the third cannot, and never makes the layer store |
| ImageStore.FreshInstallation | core/image.c:12-34 | where `/tmp` is a directory both can be made |

## Left out

- SummaryFields: the ENV and LABEL lists stop at their declared size of 256; the guard as compiled is 512 (core/image.h:21), and beyond 256 the code writes past the array.
- ReadBack: reading starts from a zeroed record, and fields the reader does not restore (paths, detach and others) are taken to survive as stored and paths to be those of the id; the code reads into uninitialised memory.
- ContainerRecord.ReadContainerMetadata: only the ten fields that reading touches are fields of the class; elsewhere a container or image record is a value, so aliasing of a struct is not captured.
- Create: the message and body must leave room for their terminators, because the response struct is not cleared first; longer ones would be read without an end.
- ParseHttpRequest: method, URL and version are cut to their buffers; a word that fills its buffer exactly is not terminated in the code.
- ParseRunCommand: requires the joined environment to fit its buffer, which the code does not check.
- EveryChildAccountedFor: assumes of the kernel that a new pid is that of no unreaped child; `CarefulRunsLoseNoChild` and `SmoothRunsLoseNoChild` say of which runs the steps are safe.
- WholeRecordReadsBack: exact where the reader gets every line whole; of other records it is stated what always and what never comes back (`SurvivesReading`, `ReadsOnlyLineTexts`), not exactly which come back whole.
- Requests run one after the other except around the wait of a start; two requests interleaved inside one read and write of a record are not modelled.
- Machine integers are unbounded, except times (64 bits), pids and exit codes (32 bits), and the two words of an id; a number scanned from a forged line is not wrapped.
- Buffer overflows as such: strings that a buffer cannot hold are cut where the code cuts, and otherwise excluded by a stated bound or kept whole, like a text scanned from a forged line or from a create body.
- Text of RUN: the shell either writes some text to the script or does not; quotes in the text, which would end the shell's own quoting, are not followed.
- `cp`, `rm -rf` and `du`: a tree below the layer directory, a pruned tree and a number; a name is one word of those commands, whatever is in it; the text of a layer's own metadata is arbitrary.
- Symbolic links, permissions and over-long file names: an operation may be refused for reasons the tree does not show.
- The routers are functions from a request to the handler reached, not branches that fill a response; `Server.HandleContainersApi` adds the response for container requests, and `Server.HandleClient` leaves out requests for images.
- Sockets, threads, fork and exec, namespaces, mounts and signals (core/daemon.c, core/daemon_runtime.c, core/http.c:6-129, eg/).
- The options of `build`, `commit` and the single-name commands, and `validate_command`: the same loop with fewer options.
- `list_images` and `tag_image`: the former doubles the path, the latter writes back unread fields.
- The query of build requests (core/http.c:446-467), JSON listings, usage text and logging.

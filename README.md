# billing-job, modelled in Dafny

A model of the hand-written parts of a Spring Batch billing job. The job has three steps:

1. It stages an input CSV file.
2. It ingests the file into a table. Lines it cannot parse are logged to a skip file.
3. It prices each record and writes a report. Only records whose bill reaches a spending threshold are written.

Spring Batch itself runs the steps, the chunks, the transactions and the skip policy. The repository only configures it, so the engine is not modelled. The model covers the five pieces of logic the repository writes itself.

Modules, by source file:

- `Processor` (`BillingDataProcessor.java`): the item processor, as pure functions over reals. `Process` computes the weighted total of the three usage measures. It returns `None` (Java's `null`) when the total is strictly below the threshold. Otherwise it returns the record paired with its total. The three rates are a `Pricing` parameter. The threshold is a parameter and defaults to 150. `Report` and `Payable` lift the processor to a sequence of records, which is how the report step applies it.
- `Validation` (`ParametersValidator.java`): `Validate` is a function over a string-to-string parameter map. Absent keys stand for Java's `null`. The thrown `JobParametersInvalidException` becomes `Invalid(message)`.
- `SkipLog` (`BillingDataSkipListener.java`): the class `BillingDataSkipListener`. Its log path is a `const` fixed by the constructor. `OnSkipInRead` appends `"{lineNumber}|{rawLine}\n"` to that file in a shared `FileSystem`. `DecodeLog` is an independent reader of that format. The lemmas show that after any series of skip events the log reads back as the earlier entries followed by one entry per parse failure, in event order.
- `Staging` (`FilePreparationTasklet.java`): `Execute` is a method over the shared `FileSystem`. `TargetPath` derives `staging/<file name>`, and `Staged` is the state after a successful run.
- `Job` (`BillingJob.java`): the classes `JobExecution`, `JobRepository` and `BillingJob`. `Execute` sets the statuses as the function `Finished` describes, unless a throwable that is not an `Exception` skips the catch. In every case it then hands the execution to the repository once. The repository records every state it is asked to persist.

Supporting modules:

- `Wrappers`: `Option`, `Result` and `Outcome`. These stand in for `null` and for thrown exceptions.
- `BillingRecords`: the `BillingData` record and a 32-bit `Int32` type for Java's `int`.
- `Paths`: `Paths.get`, `toString` and `toFile().getName()` on a Unix file system.
- `Files`: an abstract file system, a map from path to content. It offers `Files.copy` with REPLACE_EXISTING and `Files.writeString` with APPEND and CREATE.
- `Decimal`: Java's decimal rendering of an `int`, and a parser that inverts it.

Failures that come from outside are explicit inputs. A copy takes a `CopyFault`: none, a fault before the target is touched, or a fault after the old target was removed. An append takes a `deviceFails`/`writeFails` flag. What `BillingJob.execute` raises while it reads its parameters is a `Raised` input: nothing, an `Exception`, or another `Throwable` such as an `Error`.

Three behaviours of the code are easy to misread, and the model keeps each as written:

- The validator checks only `input.file`. The output file, year and month parameters are not checked (`Validation.OtherKeysIgnored`).
- The processor's test is a strict `<`, so a record whose total equals the threshold (150) is kept (`Processor.BoundaryExampleIsKept`).
- On the exception path, `BillingJob.execute` still sets the batch status to COMPLETED. Only the exit status says FAILED (`Job.Finished`).

## Model

| member | source | states |
|---|---|---|
| `Processor.SpendingThreshold` | src/main/java/com/gustavo/billingjob/config/BillingDataProcessor.java:9-10 | the threshold is the configured value, and 150 when none is configured |
| `Processor.Process` | src/main/java/com/gustavo/billingjob/config/BillingDataProcessor.java:19-25 | the record is filtered exactly when its weighted total is strictly below the threshold; a kept result carries the unchanged record and that total, which is at least the threshold |
| `Processor.BoundaryTotalIsKept` | src/main/java/com/gustavo/billingjob/config/BillingDataProcessor.java:21-24 | a total exactly equal to the threshold is kept, with that total |
| `Processor.BoundaryExampleIsKept` | src/main/java/com/gustavo/billingjob/config/BillingDataProcessor.java:20-24 | rates 1.0/0.5/0.25, threshold 150 and a data usage of 150 (no calls, no SMS) give a kept row with total 150 |
| `Processor.LoweringThresholdKeeps` | src/main/java/com/gustavo/billingjob/config/BillingDataProcessor.java:21 | lowering the threshold never filters a kept record, and yields the same row |
| `Processor.ReportIsPayableWithTotals` | src/main/java/com/gustavo/billingjob/config/BillingDataProcessor.java:19-25 | over a sequence of records, the processor's output has one row per record whose total reaches the threshold, in input order, each pairing the record with its total |
| `Processor.PayableAreInputsAtThreshold` | src/main/java/com/gustavo/billingjob/config/BillingDataProcessor.java:21-24 | a record is reported if and only if it is an input whose total reaches the threshold |
| `Processor.LoweringThresholdGrowsReport` | src/main/java/com/gustavo/billingjob/config/BillingDataProcessor.java:21 | the report at a higher threshold is the report at a lower one, keeping only the rows whose total reaches the higher threshold, in the same order; so a lower threshold never yields a shorter report |
| `Validation.Validate` | src/main/java/com/gustavo/billingjob/config/ParametersValidator.java:10-16 | validation passes if and only if `input.file` is present and non-empty; every failure carries the message "The 'input.file' parameter is required." |
| `Validation.OnlyInputFileMatters` | src/main/java/com/gustavo/billingjob/config/ParametersValidator.java:11-13 | two parameter maps that agree on `input.file` get the same verdict |
| `Validation.OtherKeysIgnored` | src/main/java/com/gustavo/billingjob/config/ParametersValidator.java:11-16 | setting or removing any key other than `input.file` does not change the verdict |
| `Paths.Get` | src/main/java/com/gustavo/billingjob/config/FilePreparationTasklet.java:24 | a parsed path holds only non-empty, separator-free names and is absolute exactly when the text starts with '/' |
| `Paths.FileNameAfterSeparator` | src/main/java/com/gustavo/billingjob/config/FilePreparationTasklet.java:24-25 | the file name of any text ending in `/name`, with or without one trailing separator, is `name`, whatever comes before it |
| `Paths.GetOfRender` | src/main/java/com/gustavo/billingjob/config/FilePreparationTasklet.java:24-25 | parsing the text of a path gives the path back |
| `Files.Copied` | src/main/java/com/gustavo/billingjob/config/FilePreparationTasklet.java:26-29 | after a copy the target holds the source's content, an existing target is replaced, every other file is unchanged, and nothing changes when the source is missing |
| `Files.Appended` | src/main/java/com/gustavo/billingjob/config/BillingDataSkipListener.java:31-33 | appending creates the file when absent, extends its old content by exactly the text, and leaves every other file unchanged |
| `Files.FileSystem.Copy` | src/main/java/com/gustavo/billingjob/config/FilePreparationTasklet.java:29 | a missing source throws and changes nothing; a source that is the target itself is left alone; a fault before the target is touched throws and changes nothing; a fault after REPLACE_EXISTING deleted the old target throws and leaves no target; otherwise the files become `Copied` |
| `Files.FileSystem.AppendString` | src/main/java/com/gustavo/billingjob/config/BillingDataSkipListener.java:33 | a failing device throws and changes nothing; otherwise the files become `Appended` |
| `Decimal.IntString` | src/main/java/com/gustavo/billingjob/config/BillingDataSkipListener.java:29 | a line number renders as decimal digits, preceded by '-' when negative |
| `Decimal.ParseIntString` | src/main/java/com/gustavo/billingjob/config/BillingDataSkipListener.java:29 | reading back the rendering of any `int` gives the same number |
| `SkipLog.BillingDataSkipListener.constructor` | src/main/java/com/gustavo/billingjob/config/BillingDataSkipListener.java:17-22 | the log path is the parsed constructor argument, held in a constant field that never changes |
| `SkipLog.BillingDataSkipListener.OnSkipInRead` | src/main/java/com/gustavo/billingjob/config/BillingDataSkipListener.java:25-38 | a parse failure appends exactly one line to the log file: the line number, a vertical bar, the raw line and the line separator; the file is created when absent; any other throwable changes nothing; a failed write changes nothing and fails with "Unable to write skipped item " followed by the line |
| `SkipLog.DecodeSkipLine` | src/main/java/com/gustavo/billingjob/config/BillingDataSkipListener.java:27-29 | a skip line reads back as its line number and raw line |
| `SkipLog.DecodeOneLine` | src/main/java/com/gustavo/billingjob/config/BillingDataSkipListener.java:29-33 | a newly created log, holding one skip line, reads back as exactly that entry |
| `SkipLog.DecodeAfterAppend` | src/main/java/com/gustavo/billingjob/config/BillingDataSkipListener.java:29-33 | appending a skip line to a readable log adds exactly its entry after the earlier ones |
| `SkipLog.DecodeAfterEvents` | src/main/java/com/gustavo/billingjob/config/BillingDataSkipListener.java:26-37 | after n skip events the log reads as the earlier entries followed by one entry per parse failure, in event order; other throwables add nothing |
| `SkipLog.LogOnlyGrows` | src/main/java/com/gustavo/billingjob/config/BillingDataSkipListener.java:31-33 | the earlier log is a prefix of the log after any series of skip events |
| `Staging.TargetPathShape` | src/main/java/com/gustavo/billingjob/config/FilePreparationTasklet.java:23-25 | the target is the relative path `staging/<last name of the input>`, or `staging` alone when the input has no name |
| `Staging.TargetKeepsFileName` | src/main/java/com/gustavo/billingjob/config/FilePreparationTasklet.java:25 | the target keeps the input's file name, so staging the staged copy lands on itself |
| `Staging.StagesByFileName` | src/test/java/com/gustavo/billingjob/BillingJobApplicationTests.java:79 | an input `<prefix>/name` is staged at `staging/name`, whatever the prefix and with or without a trailing separator, as with `input/billing-2023-01.csv` |
| `Staging.StagingIsIdempotent` | src/main/java/com/gustavo/billingjob/config/FilePreparationTasklet.java:26-29 | after staging, the source is still present and the target holds its content; staging again gives the same files |
| `Staging.Execute` | src/main/java/com/gustavo/billingjob/config/FilePreparationTasklet.java:20-31 | a missing `input.file`, a missing source or a fault before the target is touched throws and changes no file; a fault after the old target was deleted throws and leaves no staged file; otherwise the files become `Staged` and FINISHED is returned |
| `Job.Finished` | src/main/java/com/gustavo/billingjob/config/BillingJob.java:25-38 | the batch status is COMPLETED on both paths; the exit code is COMPLETED exactly when nothing was raised and FAILED exactly when something was; on failure the exception is appended to the failures and its message becomes the exit description |
| `Job.JobRepository.Update` | src/main/java/com/gustavo/billingjob/config/BillingJob.java:40 | the repository records the execution's current state after what it recorded before |
| `Job.BillingJob.constructor` | src/main/java/com/gustavo/billingjob/config/BillingJob.java:14-16 | the job holds the repository it is given, in a constant field |
| `Job.BillingJob.GetName` | src/main/java/com/gustavo/billingjob/config/BillingJob.java:19-21 | the name is always "BillingJob" |
| `Job.BillingJob.Execute` | src/main/java/com/gustavo/billingjob/config/BillingJob.java:24-42 | without a throw or on an `Exception`, the execution ends in the state `Finished` gives and `execute` returns normally; on a throwable that is not an `Exception`, the execution is unchanged and that throwable leaves `execute`; on all three paths the repository is updated exactly once, with the execution's final state; the parameters are a constant and are only read |

## Left out

- The chunk engine, the skip policy and the step order are executed by Spring Batch. This covers the chunk size of 100, skipping `FlatFileParseException`, the skip limit of 10, the order step1, step2, step3, and running the validator before the steps (`BillingJobConfiguration.java`). That library code is not part of this model.
- The reader and writer beans are I/O against the file system and the database. They are not modelled: delimited-file parsing, the JDBC cursor read with its formatted SQL, the batch insert and the report file writer.
- `Processor.Process`: works over reals, so the IEEE `float`/`double` rounding of the total and the `float`/`double` comparison with the threshold are not modelled.
- The pricing service is not part of this model, and its rates are a parameter. The wiring of the processor bean is not modelled: the configuration calls a no-argument constructor that the processor does not declare.
- The console line printed by `BillingJob.execute` is not modelled.
- `Job.Finished`: sets the exit description to the exception's message. Spring Batch's `addExitDescription` also handles a `null` or blank message and an existing description, and that behaviour is not part of this model.
- `Job.BillingJob.Execute`: a failure of the repository's `update` inside the `finally` block is not modelled. A throwable that is not an `Exception` is modelled only when it is raised before the statuses are set. One raised between the two setters, which would leave the batch status COMPLETED with the exit status unchanged, is not modelled.
- `SkipLog.BillingDataSkipListener.OnSkipInRead`: a failed write leaves the file unchanged. A write that fails part-way is not modelled.
- `System.lineSeparator()` is fixed to "\n". The decoding lemmas assume single-line raw inputs, which is what a line-by-line reader delivers. A raw record spanning several lines would make the log ambiguous.
- `Paths`: only Unix paths are modelled. Directories, a `NUL` character that `Paths.get` rejects, and `Paths.get(null)` for a missing `skip.file` parameter are not part of this model.
- `Staging.Execute`: copy failures are modelled as a missing source and as a device fault, either before the target is touched (a missing or read-only `staging` directory) or after REPLACE_EXISTING removed the old target (an unreadable source, a transfer that breaks off). Copying a directory is not modelled.
- `Files.Copied`: files are identified by the spelling of their parsed path. `.` and `..` are ordinary names, and there are no symbolic links, so `./staging/x.csv`, `staging/../staging/x.csv`, an absolute spelling and a link to `staging/x.csv` are separate entries. Java's `Files.copy` treats them as one file: its same-file check and the sharing of writes between spellings are captured only for identical parsed paths.
- Job parameters are modelled as string values only. Spring Batch's typed parameters are not modelled.
- The end-to-end test's row counts (1000 ingested, 781 reported) depend on an input file that is not part of this model.

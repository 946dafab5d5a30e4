# ShellgeiOnlineJudge: a verified model

The project models how the judge runs a submitted shell command and what surrounds that: the runner's
sandbox pool and its watchdog, the slots and rate limits in front of it, the path of a command's output
from raw chunks to the public response, schema migrations, log retention, the production deployment, the
browser's submission state, and the copyable curl example.

Concurrent parts are state machines over atomic steps (one step per lock section or outside call), with
invariants proved for every interleaving and every run; each object that its methods update in place is
also a class whose methods are proved against the same functions the state machine uses. The data path is
functions with lemmas that connect one stage to the next. Outside calls (Docker, HTTP, SQL, Git, Compose)
are steps or parameters with an outcome: success, failure, and failure after the effect took place where
that matters.

| files | part |
|---|---|
| SandboxPool, SandboxPoolInvariant, SandboxPoolSafety, SandboxPoolTheorems, SandboxPoolStartup, SandboxPoolTracking, SandboxPoolProgress | the pool protocol: steps, invariant, preservation, guarantees, a run that gets there, what the sweep loses, and what each operation achieves |
| ContainerManager, Watchdog, LogExecutor, SlottedCalls, RateLimiter | the objects and slots around it |
| OutputCapture, Utf8, Base64, ExecutionModels, InputValidation, Judge, RunnerResult, Submission | from captured bytes to the public response |
| Migrations, Retention, Deployment | state that outlives a process |
| Json, Utf16, RunnerHttp, Responses, SubmissionUi, ShellExamples | the wire, the browser and the shell |

Findings, each with a lemma:

- `RunnerClient.execute` takes its slot before asking for the request ID and outside the `try`; an ID
  provider that raises loses that slot for good, and once all are lost no request is admitted any more
  (`SlottedCalls.ProviderFailureLosesSlot`). Nothing else loses one (`SlottedCalls.OnlyProviderLosesSlots`).
- `exec_shellgei` itself raises exactly when the failure it reports has an empty message
  (`RunnerResult.ExecShellgeiRaisesIff`).
- A shutdown sweep that finds no container for an uncertain name gives up that name. A container is
  untracked exactly if a sweep did so while its create could still take effect, and it has not ended
  (`SandboxPoolTracking.UntrackedIff`); for every pool size there is a run whose shutdown reports no
  failure while such a container lives on (`SandboxPoolTracking.SweepCanLoseContainer`).
- The 1,000-character cut may lose one character of well-formed output when the byte cap splits a
  character on each stream (`RunnerResult.CapMayLoseOneCharacter`, for every limit); never more, and
  `RunnerResult.CapKeepsText` says exactly when.
- A deployment whose failure record is lost, and which then closes the services, leaves nothing that
  blocks the next run (`Deployment.LoseBothRecords`, `Deployment.LostRecordUnblocks`).
  `Deployment.BlockedIff` says exactly, at every moment of every run, when the next run is blocked or
  finds a settled host.
- The signal handler's docstring makes a stop request a failure that records itself and closes the
  services. `wait_smoke` retries on every ordinary exception, so a signal during a smoke test is swallowed
  and the run can end deployed (`Deployment.SignalDuringSmoke`). The failure handler guards its record
  write against `OSError` alone, so a signal there skips the stop and leaves the services open
  (`Deployment.SignalDuringRecord`). Every other signal that hits stopped services is followed by the
  record and a call to stop them, unless that record write is interrupted in turn; a signal during the
  handler's own stop call is swallowed, and the stop then counts as made with or without effect
  (`Deployment.SignalClosesUnlessSmoke`, over all runs, whatever else fails).
- A command of blanks, one with a NUL and one with a lone surrogate pass the browser's checks and are
  rejected by the server (`SubmissionUi.RejectedInputs`); these are all such commands
  (`SubmissionUi.SentIsAcceptedIff`).

## Model

| member | source | states |
|---|---|---|
| SandboxPoolSafety.RunInv | backend/soj_runner/container_manager.py:284-495 | Every state of every run, with any interleaving of create, lease, release, cleanup and shutdown and with Docker calls that fail, lose their response or take effect late, satisfies the inductive invariant. |
| SandboxPoolSafety.InvStep | backend/soj_runner/container_manager.py:284-495 | One step of any thread, or of the daemon, keeps the invariant. |
| SandboxPoolTheorems.HardCapacity | backend/soj_runner/container_manager.py:284-327 | Permits taken are exactly managed plus uncertain names plus those in a thread's hand and never exceed the pool size; until shutdown every container on the daemon is tracked, so at most `pool_size` exist. |
| SandboxPoolTracking.UntrackedIff | backend/soj_runner/container_manager.py:382-413 | In every state of every run a container is on the daemon, or still to appear there, and on none of the books exactly if it has not ended and some sweep looked for its name in vain while its create could still take effect, and then took the name off the books. |
| SandboxPoolTracking.SweepCanLoseContainer | backend/soj_runner/container_manager.py:480-495 | For every pool size there is a run whose `shutdown_pool` ends with no failure to report while a container lives on that is on no book. |
| SandboxPoolTheorems.ReleasesAreOwned | backend/soj_runner/container_manager.py:369-380 | Whoever is about to give a permit or an execution slot back owns one, so neither semaphore is released above its bound. |
| SandboxPoolTheorems.PoolAddsUp | backend/soj_runner/container_manager.py:354-367 | With no more execution slots than sandboxes, in a healthy state pool length plus engaged executions is `pool_size`. |
| SandboxPoolTheorems.LeaseIsWarm | backend/soj_runner/container_manager.py:354-360 | In a healthy state `get_container` always pops a warm container. |
| SandboxPoolTheorems.NoCapacityError | backend/soj_runner/container_manager.py:290-291 | In a healthy state neither lease nor replenishment meets the capacity error. |
| SandboxPoolTheorems.ReadyIsComplete | backend/soj_runner/container_manager.py:502-517 | Readiness means full capacity on the books, not degraded, and no permit in transit. |
| SandboxPoolStartup.StartupReachesReady | backend/soj_runner/container_manager.py:338-352 | For every pool size there is a run whose startup ends idle, healthy and ready with a full pool, so the guarantees above speak of states that occur. |
| SandboxPoolTheorems.NothingAfterShutdown | backend/soj_runner/container_manager.py:443-463 | From the lock section of `begin_shutdown` on no name is generated, nothing is registered or pooled; the books only shrink. |
| SandboxPoolTheorems.NoCreateDuringShutdown | backend/soj_runner/container_manager.py:284-305 | Once a shutdown has begun no thread is about to issue a Docker create. |
| SandboxPoolTheorems.SweepIsComplete | backend/soj_runner/container_manager.py:480-495 | After `shutdown_pool` only what it failed to remove can be left; if it removed everything, nothing is managed or pending, and at rest all permits and slots are back, even with releases running beside it. |
| SandboxPoolTheorems.LifeOnlyAges | backend/soj_runner/container_manager.py:329-336 | Over a run a container only moves on: built, pooled, leased, spent. |
| SandboxPoolTheorems.LeasedAtMostOnce | backend/soj_runner/container_manager.py:354-360 | Over a whole run each container is leased at most once. |
| SandboxPoolTheorems.UsersAreExclusive | backend/soj_runner/container_manager.py:465-478 | From the lease to the end of its release an execution is the only thread that uses its container, shutdown aside; the pool holds distinct containers, and the used one is not among them. |
| SandboxPoolTheorems.NoDeadlock | backend/soj_runner/container_manager.py:415-463 | Whenever a thread is busy, some busy thread can move: create lock, cleanup lock and permits never deadlock. |
| SandboxPoolProgress.DegradedIff | backend/soj_runner/container_manager.py:100-104 | In every state of every run the pool is degraded exactly if some thread marked it before a shutdown. |
| SandboxPoolProgress.DegradeHasCause | backend/soj_runner/container_manager.py:465-478 | A thread about to mark the pool comes from a failed removal in its release or a create that raised, missing capacity on a lease excepted. |
| SandboxPoolProgress.FailsIff | backend/soj_runner/container_manager.py:415-441 | A removal counts as failed exactly if Docker's answer says so; the capacity error is exactly a missing permit. |
| SandboxPoolProgress.ReleaseReplaces | backend/soj_runner/container_manager.py:465-478 | From every reachable healthy state with free locks, a release whose calls all work ends idle and the pool stays healthy: the used container is gone from Docker and the books, and a new one waits at the end of the pool on the same permit. |
| SandboxPoolProgress.FailedReleaseDegrades | backend/soj_runner/container_manager.py:465-470 | A release whose removal fails leaves container, entry and permit and marks the pool. |
| SandboxPoolProgress.LeaseTakesFirst | backend/soj_runner/container_manager.py:354-360 | A lease takes the first warm container and nothing else, and the execution releases that very container, killing it unless it is already stopped. |
| SandboxPoolProgress.LeaseCreates | backend/soj_runner/container_manager.py:361-367 | With an empty pool and a free permit a lease creates a container of its own. |
| SandboxPoolProgress.LostCreateIsUndone | backend/soj_runner/container_manager.py:296-305 | A create that fails after it took effect is undone: container, name and permit are gone, and the caller raises. |
| SandboxPoolProgress.ShutdownKillsManaged | backend/soj_runner/container_manager.py:443-463 | When `begin_shutdown` returns, every container managed at its start has been killed. |
| SandboxPoolProgress.ShutdownEmpties | backend/soj_runner/container_manager.py:480-495 | From every reachable state with free locks, a shutdown whose calls all work ends with empty books and no failure; only what an earlier sweep gave up can be left on Docker. |
| ContainerManagerObject.ContainerManager.CreateContainer | backend/soj_runner/container_manager.py:284-327 | A create that returns has registered its container; one that raises keeps a permit and an entry exactly for what may still exist. |
| ContainerManagerObject.ContainerManager.CreateAndAdd | backend/soj_runner/container_manager.py:329-336 | The new container is registered and pooled, or a failure leaves what the create left. |
| ContainerManagerObject.ContainerManager.GetContainer | backend/soj_runner/container_manager.py:354-367 | The first warm container, else a fresh one; a failure other than missing capacity marks the pool degraded. |
| ContainerManagerObject.ContainerManager.CleanupContainer | backend/soj_runner/container_manager.py:415-441 | A removal that works takes the entry off the books with its permit; one that fails changes nothing. |
| ContainerManagerObject.ContainerManager.ReleaseContainer | backend/soj_runner/container_manager.py:465-478 | A used container never returns to the pool: it is removed and replaced, removed without replacement during shutdown, or the pool is marked degraded. |
| ContainerManagerObject.ContainerManager.InitializePool | backend/soj_runner/container_manager.py:338-352 | Startup ends with exactly the new containers pooled and the pool initialised, or with the manager shut down. |
| ContainerManagerObject.ContainerManager.BeginShutdown | backend/soj_runner/container_manager.py:443-463 | The flag is set and the pool emptied; the books stay for the sweep. |
| ContainerManagerObject.ContainerManager.ShutdownPool | backend/soj_runner/container_manager.py:480-495 | Afterwards exactly the entries whose removal failed are left, each with its permit. |
| Watchdog.ExecutionWatchdog.Terminate | backend/soj_runner/sandbox_executor.py:73-87 | The first reason is recorded and its kill started; later callers, or one after `finish`, do nothing. |
| Watchdog.ExactlyOneKill | backend/soj_runner/sandbox_executor.py:326-351 | For every interleaving of timer, output limit and cleanup, exactly one kill is attempted per execution before release, none is still under way then, `container_stopped` is true exactly if it returned, and release kills again exactly if it did not. |
| Watchdog.FirstReasonWins | backend/soj_runner/sandbox_executor.py:73-99 | The first recorded reason is the one the execution reports, whatever happens later. |
| Watchdog.TruncationMatchesReason | backend/soj_runner/sandbox_executor.py:420-437 | An output-limit result is truncated, and truncated output always has a recorded reason. |
| Watchdog.JoinReturns | backend/soj_runner/sandbox_executor.py:326-351 | The join of the timer thread cannot block for ever. |
| Watchdog.ClaimsIff | backend/soj_runner/sandbox_executor.py:73-99 | The reason is recorded exactly by the fired timer before `finish` or by the output limit, whichever claims first. |
| Watchdog.SeenIsWhatHappened | backend/soj_runner/sandbox_executor.py:194-242 | Whatever else happens, exit code, truncation and capture error in the end are what the stream loop and the end of the capture brought. |
| LogExecutor.ExecutionLogExecutor.Submit | backend/soj_backend/execution_log_repository.py:175-195 | Full or closing: refused unchanged. A pool that raises: closed for good, permit back. Otherwise the work owns a permit until it is done. |
| LogExecutor.UnfinishedIsBounded | backend/soj_backend/execution_log_repository.py:162-206 | Unfinished work items, also one queued by a submit that raised, never exceed the four workers, and at most one submit ever ends with the pool raising. |
| LogExecutor.AdmissionIff | backend/soj_backend/execution_log_repository.py:175-206 | A submit is admitted exactly while the executor is open and one of four permits is free; shutdown closes it, and only then can queued work be cancelled. |
| LogExecutor.PermitFollowsWork | backend/soj_backend/execution_log_repository.py:175-199 | A permit stays taken while its work is unfinished, and a settled ticket never moves it again: it comes back exactly once. |
| LogExecutor.ClosedAdmitsNothing | backend/soj_backend/execution_log_repository.py:201-206 | After closing no submit is admitted. |
| LogExecutor.AllPermitsComeBack | backend/soj_backend/execution_log_repository.py:197-206 | When submits have left and futures are done or cancelled and called back, all permits are back. |
| LogExecutor.HolderCanMove | backend/soj_backend/execution_log_repository.py:197-206 | A ticket that holds a permit can always move towards returning it. |
| SlottedCalls.SlotOutlivesWorker | backend/soj_backend/runner_client.py:130-167 | A slot is taken as long as its worker is unfinished, under errors, timeouts and cancellation at any point, so at most `capacity` workers exist. |
| SlottedCalls.ReleasedOnce | backend/soj_runner/run_shellgei.py:170-209 | A step that returns a slot closes its request, and a closed request never returns one. |
| SlottedCalls.LeavesIff | backend/soj_shared/async_thread.py:10-29 | A result reaches its request exactly if a poll finds the worker done; a timeout or cancellation leaves the slot with the worker. |
| SlottedCalls.OnlyProviderLosesSlots | backend/soj_backend/runner_client.py:136-140 | At rest the missing slots are exactly the requests whose ID provider raised. |
| SlottedCalls.LostStaysLost | backend/soj_backend/runner_client.py:136-140 | Whatever follows, a lost request stays lost and its slot taken. |
| SlottedCalls.ProviderFailureLosesSlot | backend/soj_backend/runner_client.py:136-140 | Every number of slots up to the capacity can be lost to raising ID providers; whatever follows, that many stay taken, and once all are, no step is possible any more. |
| SlottedCalls.HolderCanMove | backend/soj_runner/run_shellgei.py:178-209 | A request that holds its slot and is not lost can always move towards returning it. |
| SlottedCalls.WaitForThreadFuture | backend/soj_shared/async_thread.py:10-29 | The polling loop returns as soon as a poll finds the future done, raises the timeout only at the deadline, and never sleeps past it. |
| RateLimiter.SandboxStartRateLimiter.TryAcquire | backend/soj_runner/admission_control.py:32-47 | Refills by elapsed time up to the burst and grants exactly when a whole token is there. |
| RateLimiter.WindowBound | backend/soj_runner/admission_control.py:32-47 | With a monotonic clock, starts admitted in any window are at most the burst plus the rate times its length. |
| RateLimiter.AdmitsIffEveryWindowAllows | backend/soj_runner/admission_control.py:32-47 | A request is admitted if and only if one more start keeps every window ending there within its bound. |
| RateLimiter.FoundIsTightestBudget | backend/soj_runner/admission_control.py:32-47 | The tokens found are the least budget over all earlier windows, and one window attains it. |
| RateLimiter.AnyClockWindowBound | backend/soj_runner/admission_control.py:32-47 | For any clock, starts admitted in a window are at most the burst plus the rate times the clock's forward movement in it, which for a monotonic clock is its length. |
| RateLimiter.AnyClockAdmitsIff | backend/soj_runner/admission_control.py:32-47 | For any clock, a request is admitted if and only if one more start keeps every window ending there within that bound. |
| RateLimiter.BackwardClockBreaksBound | backend/soj_runner/admission_control.py:32-47 | Forward movement is what counts: for all limits a clock set back once admits more starts than the elapsed time of the window would allow. |
| OutputCapture.SplitOutputBuffer.Append | backend/soj_runner/sandbox_executor.py:177-186 | The two sides hold the first `byte_limit` bytes of all that was appended, and `truncated` is set exactly when one was dropped. |
| OutputCapture.CaptureOutput | backend/soj_runner/sandbox_executor.py:194-242 | For any interleaved chunks the two streams are those of the first `limit` bytes, flagged truncated exactly when more were written. |
| OutputCapture.CapturedPrefixes | backend/soj_runner/sandbox_executor.py:194-242 | Each captured stream is a prefix of its full stream, the total is `min(limit, all)`, and without truncation both are whole. |
| OutputCapture.BoundedByteBuffer.Append | backend/soj_runner/sandbox_limits.py:11-18 | Keeps the first bytes up to the limit and says whether all of them fitted. |
| OutputCapture.CaptureArtifact | backend/soj_runner/sandbox_executor.py:244-282 | The whole file, or nothing if a read raises, it is empty or it is over the limit. |
| Utf8.DecodeEncode | backend/soj_runner/run_shellgei.py:79-94 | Decoding with ill-formed bytes ignored inverts UTF-8 encoding (section 3 of RFC 3629). |
| Utf8.EncodedBits | backend/soj_runner/run_shellgei.py:79-94 | The bytes of a character carry its code point in the bit groups of section 3 of RFC 3629. |
| Utf8.DecodePrefix | backend/soj_runner/run_shellgei.py:79-94 | Cutting any byte stream, well-formed or not, only cuts its decoded text. |
| Utf8.DecodeCut | backend/soj_runner/run_shellgei.py:79-94 | A cut well-formed stream decodes to a prefix and loses at most the three bytes of the split character. |
| Base64.DecodeEncode | backend/soj_runner/run_shellgei.py:104-128 | Base64 (section 4 of RFC 4648) of an image decodes to the image. |
| Base64.EncodeSpells | backend/soj_runner/run_shellgei.py:104-128 | Every group of four letters spells the 24 bits of its three bytes in the alphabet of section 4 of RFC 4648, with `=` for missing bytes. |
| Base64.DecodesIffPadded | backend/soj_backend/judge.py:174-180 | Image text decodes exactly if it is padded text of the Base64 alphabet in whole groups of four. |
| Base64.EncodeIsPadded | backend/soj_backend/models/public_api.py:31-41 | Encoded images are the padded Base64 text the public DTO demands. |
| Base64.DisplayAllowanceIsLargest | backend/soj_runner/sandbox_executor.py:410-419 | A display image keeps the two images within 1,000,000 characters if and only if it is within the allowance. |
| ExecutionModels.ProblemPathIsArtifactPath | backend/soj_shared/models/execution.py:24-46 | Every path the problem schema accepts is an acceptable artifact path. |
| InputValidation.ProblemIdIff | backend/soj_shared/input_validation.py:7-24 | A problem ID is accepted exactly when it has at most 64 characters and matches the pattern: groups of letters and digits joined by single hyphens. |
| InputValidation.RemoveCrMeans | backend/soj_shared/submission_request.py:17-22 | Wherever it stands, a carriage return is removed and any other character stays. |
| Judge.NormalFormIsUnique | backend/soj_backend/judge.py:85-87 | The normal form is the one text that is the output without carriage returns and without trailing blanks. |
| Judge.NormalizeIsIdempotent | backend/soj_backend/judge.py:85-87 | Normalizing twice is normalizing once. |
| Judge.IncompleteFails | backend/soj_backend/judge.py:120-145 | A valid result that did not complete is an execution failure with the reason of its status, for every problem. |
| Judge.TextAcceptedIff | backend/soj_backend/judge.py:90-117 | A text answer is accepted exactly when the command completed within policy and its output has the normal form of the expected text: stdout followed by stderr where the policy merges them, stdout alone otherwise. |
| Judge.PolicyDecides | backend/soj_backend/judge.py:120-145 | A completed command fails for its exit code exactly under the zero policy, else for its stderr exactly where it must be empty. |
| Judge.ImageAcceptedIff | backend/soj_backend/judge.py:148-201 | For every artifact: accepted exactly when the command completed within policy and it is at the right path and type, padded Base64 text of a payload with the right signature and the pixels of the expected image; what was encoded is what is compared. |
| Judge.ImageReason | backend/soj_backend/judge.py:148-201 | Why an image answer is refused: missing, wrong path, wrong type, in this order; different pixels only for two images that both decode. |
| Judge.ReasonFitsVerdict | backend/soj_backend/judge.py:215-267 | A verdict carries a reason exactly when it is no acceptance; output mismatch belongs to wrong answers alone, image verdicts to image problems, and a judge error to a missing or malformed problem. |
| RunnerResult.DecodeOutput | backend/soj_runner/run_shellgei.py:79-94 | The decoded pair has at most `limit` characters in all and is flagged when anything was cut. |
| RunnerResult.EveryOutcomeConverts | backend/soj_runner/run_shellgei.py:97-143 | Every outcome the executor can reach, for any race of timeout, output limit, errors and missing exit code, converts to a valid `ExecutionResult` whose images fit their common limit. |
| RunnerResult.StatusIsExact | backend/soj_runner/sandbox_executor.py:410-451 | Timed out exactly if the timeout was recorded; completed exactly if no reason was, the kill returned, capture failed nowhere, there is an exit code and nothing was cut, and then the text is the decoded whole of all captured frames; error exactly if one of those failed without a recorded reason. |
| RunnerResult.ResultCarriesRun | backend/soj_runner/sandbox_executor.py:410-451 | For every reachable stopped run the result has its exit code and duration, its text as far as it fits, the error by its cause (capture, then stop, then missing exit code), and images that decode to what was captured, at their own path and type. |
| RunnerResult.CaptureAll | backend/soj_runner/sandbox_executor.py:394-419 | What the capture of frames and files yields meets every assumption that the results above make about captured output. |
| RunnerResult.ShownIsPrefix | backend/soj_runner/run_shellgei.py:79-94 | Shown text is a prefix of the decoded output, and not truncated means nothing was left out. |
| RunnerResult.CapKeepsText | backend/soj_runner/run_shellgei.py:79-94 | When the byte cap cuts well-formed output, `limit_chars` characters survive or one less; one less exactly when the bytes of the split characters are more than the complete ones save by being narrower than four bytes, so only if both cuts split a character and the complete ones save at most two bytes. |
| RunnerResult.CapMayLoseOneCharacter | backend/soj_runner/run_shellgei.py:79-94 | For every limit there are frames of well-formed output for which that bound is attained. |
| RunnerResult.ExecShellgeiRaisesIff | backend/soj_runner/run_shellgei.py:145-168 | `exec_shellgei` raises exactly for a failure without text. |
| RunnerResult.FailuresSay | backend/soj_runner/run_shellgei.py:145-168 | Every failure outside the sandbox is a result without output whose error says what failed. |
| RunnerResult.WaitSays | backend/soj_runner/run_shellgei.py:170-209 | The request gets its worker's result, or one that says that the deadline passed or what was raised. |
| RunnerResult.AdmittedRequestGetsValidResult | backend/soj_runner/run_shellgei.py:170-209 | Whatever happens to its worker, an admitted request gets a valid result. |
| Submission.LogEntryAccepts | backend/soj_backend/models/execution_log.py:35-85 | The log-entry validator accepts every valid result of a valid request, and the entry keeps its request, output, flags, verdict and reason, with the legacy output and code they had. |
| Submission.Submit | backend/soj_backend/submit_solution.py:105-196 | Unknown problem, busy or unavailable runner return a rejection before anything is stored; a failed save keeps the judged result; every returned result meets `SubmissionResult`'s rules. |
| Submission.PublicAcceptsIff | backend/soj_backend/models/public_api.py:85-140 | A completed submission has a public response exactly when the image to show is padded Base64 text. |
| Submission.ResponseShows | backend/soj_backend/models/public_api.py:109-140 | A response shows the submission's ID, verdict, reason, output, exit code and flags, and the GIF if it is a whole one that decodes, else the judged image. |
| Submission.EncodedImageIsPublic | backend/soj_backend/models/public_api.py:31-41 | Images the runner encodes are such text. |
| Submission.EveryRunIsPublished | backend/soj_backend/models/public_api.py:99-140 | Every run the executor can produce passes the judge, log-entry, submission and public validators, and the response shows it; an accepted one completed with no recorded reason, with exit code 0 where that is demanded, and with the expected text on the streams that are judged. |
| Responses.RunnerResponseFits | backend/soj_backend/runner_client.py:99-106 | Every valid runner result whose images are plain text is within the client's byte limit and reads back from its JSON text as itself. |
| Responses.PublicResponseFits | backend/soj_backend/api/api_shellgei.py:131-136 | Every valid public response is within its byte limit, so the size check before sending never raises, and reads back as itself. |
| Responses.ResultFields | backend/soj_shared/runner_protocol.py:67-79 | What a reader finds under each name of the runner's result. |
| Responses.ExecutionFields | backend/soj_backend/models/public_api.py:72-82 | What a reader finds of the execution in the public response. |
| Responses.VerdictFields | backend/soj_backend/models/public_api.py:124-140 | What a reader finds of the verdict in the public response, in its words. |
| Responses.EveryRunTravels | backend/soj_backend/api/api_shellgei.py:131-136 | Whatever the sandbox run did, the runner's response and the public response about it are within their limits, and the runner's reads back whole. |
| Migrations.Connection.RunUpgrade2 | backend/soj_backend/migrations/versions/v0002_structured_execution_logs.py:32-81 | The column loop and the backfill together are the specified upgrade, or an exception. |
| Migrations.Connection.RunDowngrade2 | backend/soj_backend/migrations/versions/v0002_structured_execution_logs.py:84-96 | The reversed column loop is the specified downgrade, or an exception. |
| Migrations.Connection.RunMigration | backend/soj_backend/migrations/versions/v0001_legacy_execution_logs.py:34-47 | Each revision's own statements, in either direction. |
| Migrations.Connection.Transaction | backend/soj_backend/database_migrations.py:140-175 | The loops over missing or surplus revisions are the specified migration; without a failing statement they succeed whenever it does. |
| Migrations.Engine.MigrateDatabase | backend/soj_backend/database_migrations.py:140-175 | The specified migration, or an exception with the database as it was; without failures it raises exactly for an unknown target. |
| Migrations.MigrateReachesTarget | backend/soj_backend/database_migrations.py:127-175 | From any managed database a call succeeds exactly for a known target; then the records are that prefix of the list, the columns match it with the constraints they should have, and unless it went to base every row keeps its legacy values. |
| Migrations.EverySequenceStaysManaged | backend/soj_backend/database_migrations.py:84-175 | After any sequence of calls with any failures, from an empty, legacy or versioned database, records and columns match a prefix; without a call to base every row keeps its legacy values. |
| Migrations.UpThenDownRestores | backend/soj_backend/migrations/versions/v0002_structured_execution_logs.py:32-96 | Upgrade to 0002 and downgrade to 0001 give back the same columns, constraints and rows. |
| Migrations.MigrateIsIdempotent | backend/soj_backend/database_migrations.py:140-175 | Migrating to the same target again changes nothing. |
| Migrations.BackfillMeaning | backend/soj_backend/migrations/versions/v0002_structured_execution_logs.py:32-66 | After the upgrade an old row has the verdict of its judge code, as text or number (1 accepted, 2 wrong image, 3 wrong answer, 4 legacy failure, else unknown), stdout from the old output, empty stderr, flags off, and NULL for what is not known. |
| Migrations.Connection.RunSetNotNull | backend/soj_backend/migrations/versions/v0002_structured_execution_logs.py:67-81 | After the backfill no NULL stands in the way of the six constraints, which PostgreSQL then has. |
| Retention.PrunedRows | backend/soj_backend/execution_log_retention.py:45-60 | Exactly the rows neither created before the cutoff nor `max_rows` or more behind the newest ID stay. |
| Retention.PrunedFits | backend/soj_backend/execution_log_retention.py:53-56 | After pruning at most `max_rows` rows are left. |
| Retention.PruningTwiceIsOnce | backend/soj_backend/execution_log_retention.py:45-60 | Pruning again at the same time deletes nothing, even if the newest row was pruned. |
| Retention.JustSavedSurvivesIff | backend/soj_backend/execution_log_retention.py:44-58 | A just-added row survives its own pruning exactly when no more than the retention days have passed since it was created. |
| Retention.UntimedLeavesByWindow | backend/soj_backend/execution_log_retention.py:52-58 | A row without a timestamp leaves exactly when it falls out of the ID window. |
| Retention.Repository.Save | backend/soj_backend/execution_log_repository.py:52-111 | Adding and pruning commit together or not at all; it returns the new ID exactly when nothing failed. |
| Retention.NeverMoreThanMaxRows | backend/soj_backend/execution_log_repository.py:80-86 | Over any run of saves, prunings and rollbacks the table is within `max_rows` from the first commit on. |
| Retention.RowStaysUntilRemoved | backend/soj_backend/execution_log_repository.py:52-86 | A row is in the table at a later time exactly if no step between removed it by age or window; it never returns. |
| Deployment.Deployment.Execute | deploy/production.py:173-190 | It is the run its host and outcomes determine, to its end. A refusal changes nothing; superseded is exactly a question answered no and announced; success means that every call of the update succeeded in its order, and everything names the candidate; a failure with services stopped ends with record and stop attempt unless writing the record was itself interrupted; any other failure left the services alone or came after the success. |
| Deployment.Deployment.Update | deploy/production.py:192-346 | The update makes exactly the calls of its run and ends deployed, superseded, raised with services untouched, or on its way into the failure handler. |
| Deployment.Deployment.WaitDatabase | deploy/production.py:366-382 | Goes on after the first successful probe; gives up exactly after thirty failed ones, or on an exception that is no failed probe. |
| Deployment.Deployment.WaitSmoke | deploy/production.py:384-392 | Goes on after the first good try; every ordinary exception of a try is retried, and only a fifth one, a base exception or one during the pause ends it. |
| Deployment.Deployment.KeepTransferBasis | deploy/production.py:348-364 | A basis that cannot be kept costs only the archive; the run ends deployed unless something else raises. |
| Deployment.BlockedIff | deploy/production.py:300-346 | At every moment of every run, complete or cut off, the next run is blocked or finds a settled host exactly when a record stands or nothing closed the services since the last removal of one. |
| Deployment.LostRecordUnblocks | deploy/production.py:178-189 | From every settled host, the run whose two record writes fail and whose other calls work ends closed with nothing to block the next run. |
| Deployment.LoseBothRecords | deploy/production.py:173-190 | `execute` itself ends so. |
| Deployment.FailureEndsAllChange | deploy/production.py:194-195 | Over any series of runs, complete or cut off, nothing changes any more while `FAILED` exists, and if no record was lost the host stays blocked or settled. |
| Deployment.RaisesIff | deploy/production.py:173-190 | A run raises exactly when `FAILED` refused it or one of its outcomes was an exception that is neither retried nor excused. |
| Deployment.SignalClosesUnlessSmoke | deploy/production.py:173-190 | What a termination signal does, in every run and for every call it can hit, whatever else fails. With the services stopped the update goes on exactly if the signal hits a smoke test; otherwise the run ends raised in the handler, with the record and then the stop exactly if no write of the handler's record, the signal's own included, raises anything but an `OSError`. With the services not stopped the run is over, the services untouched or deployed. |
| Deployment.LoneSignal | deploy/production.py:395-397 | Where nothing else goes wrong, the run ends deployed exactly if the signal hits the smoke test; any other that hits stopped services leaves the record and closed services. |
| Deployment.SignalDuringRecord | deploy/production.py:178-190 | `execute` with a failed image check and a signal in the handler's record write ends raised with the services open, never asked to stop. |
| Deployment.SignalDuringSmoke | deploy/production.py:384-397 | `execute` with a signal in the first smoke test ends deployed. |
| Deployment.MigrationIsFenced | deploy/production.py:302-326 | Migration runs only with services stopped, record present, new override active and the database seen ready since. |
| Deployment.RemovalIsChecked | deploy/production.py:327-344 | The record is removed only after start, all four image checks, smoke and the current record, with no service touched since. |
| Deployment.SuccessIsChecked | deploy/production.py:192-346 | A run that ends deployed made these calls with success in this order: host, record, two questions whether main still names the candidate, both answered yes, with ancestor, old project, images loaded and then checked between them, merge, configuration, stop, migration, start, four image checks, smoke, current record, removal of the failure record. |
| Deployment.StoppedAfterPreparation | deploy/production.py:192-304 | The in-progress record is written, and services are touched, only after the whole preparation succeeded in this order. |
| Deployment.SupersededIff | deploy/production.py:223-227 | Some question whether main still names the candidate is answered no exactly if the last call announces it; then nothing was touched, and the run is superseded unless the announcement itself raised. |
| Deployment.PhaseOfFailure | deploy/production.py:178-183 | The phase a failure is recorded with is that of the lost call. |
| Deployment.RaisesWhat | deploy/production.py:173-190 | The error that comes out is the fatal one, unless the handler's record write or stop call is interrupted for good. |
| Deployment.DeployedEnds | deploy/production.py:348-364 | A deployed run kept the basis, or reported that it could not and dropped the archive. |
| Deployment.BasisIff | deploy/production.py:348-364 | At every moment the transfer basis is the candidate exactly if keeping it took effect, else what it was. |
| Deployment.Complete | deploy/production.py:173-190 | Every run ends: no sequence of outcomes keeps it going for ever. |
| Json.ReadEscaped | backend/soj_backend/runner_client.py:90-93 | Every string reads back from its JSON text (section 7 of RFC 8259), whatever follows. |
| Json.ParsePrinted | backend/soj_backend/runner_client.py:90-93 | Every object, with nested objects, texts, integers, flags and nulls, reads back from its JSON text. |
| Json.ObjectBytes | backend/soj_backend/runner_client.py:90-93 | The exact UTF-8 size of an object's JSON text, from the sizes of its members. |
| RunnerHttp.RequestFits | backend/soj_shared/runner_protocol.py:57-64 | Every valid runner request fits the 8 KiB limit and decodes and parses to itself. |
| RunnerHttp.RequestFields | backend/soj_shared/runner_protocol.py:57-64 | What the runner finds under each name of the request. |
| RunnerHttp.ReadBoundedBody | backend/soj_runner/runner_http_security.py:66-77 | Ends with the concatenated body and the message that cut it off, or too large at the first piece over the limit. |
| RunnerHttp.ChunkingDoesNotMatter | backend/soj_runner/runner_http_security.py:66-77 | However a body is cut, it is read whole, or refused exactly when it exceeds the limit. |
| RunnerHttp.Call | backend/soj_runner/runner_http_security.py:87-111 | Other paths pass; a misconfigured secret raises, and 401, 400 and 413 are answered, before the body is read; otherwise the buffered body is forwarded or refused. |
| RunnerHttp.ForwardedIff | backend/soj_runner/runner_http_security.py:87-127 | A body goes on exactly when the request is authenticated, declares no more than the limit and its messages end within the limit. |
| RunnerHttp.AuthenticatedIff | backend/soj_runner/runner_http_security.py:29-45 | Authenticated is exactly a sound secret and one Authorization header, which is that secret. |
| RunnerHttp.LengthAllowedIff | backend/soj_runner/runner_http_security.py:48-63 | The declared length is accepted exactly if there is none, or one header that is a number from 0 to 8192. |
| RunnerHttp.AnswersAre | backend/soj_runner/runner_http_security.py:87-111 | Which answer each request gets, in the order of the checks. |
| RunnerHttp.ValidRequestIsForwarded | backend/soj_runner/runner_http_security.py:95-127 | An authenticated valid request is never rejected for size: in any pieces, exactly its body goes on. |
| RunnerHttp.Replay.Receive | backend/soj_runner/runner_http_security.py:113-125 | The body comes once and first, then the terminal message or the rest of the channel in order. |
| SubmissionUi.NormalForm | frontend/src/functions/escape_str.tsx:10-12 | The normalized command is a piece of the input without carriage returns, not blank at either end, with only blanks lost. |
| SubmissionUi.PrepareIff | frontend/src/functions/submit.tsx:87-110 | The browser refuses exactly empty input and more code units than the limit, and sends the rest in normal form. |
| SubmissionUi.SentIsAcceptedIff | frontend/src/functions/submit.tsx:87-110 | What the browser sends, as UTF-16 code units, passes the server's rules exactly when something other than blanks was typed, no NUL is left and its surrogates are paired. |
| SubmissionUi.RejectedInputs | backend/soj_shared/submission_request.py:15-33 | Blanks, a NUL and a lone surrogate pass the browser and fail at the server. |
| Utf16.DecodesIffPaired | backend/soj_shared/submission_request.py:29-32 | Code units are text exactly when every surrogate has its partner. |
| Utf16.EncodeDecode | backend/soj_shared/submission_request.py:29-32 | Text decoded from code units encodes to them again. |
| SubmissionUi.RequestKeyIsInjective | frontend/src/functions/submit.tsx:104-109 | The request key determines problem and normalized command, as problem IDs hold no NUL. |
| SubmissionUi.SojRun.SubmitClick | frontend/src/tsx/run.tsx:47-76 | A click refuses, is ignored, or aborts the old request and starts the new one. |
| SubmissionUi.SojRun.Settle | frontend/src/tsx/run.tsx:68-75 | A settled request is shown exactly if it has the current version. |
| SubmissionUi.SojRun.Cleanup | frontend/src/tsx/run.tsx:38-45 | Unmounting aborts the active request and sets nothing. |
| SubmissionUi.IgnoredIffRepeats | frontend/src/tsx/run.tsx:56-58 | A click is ignored exactly when it repeats the running problem and command. |
| SubmissionUi.ShownIsLatest | frontend/src/tsx/run.tsx:35-77 | In every reachable state a submission is active exactly while a mounted page shows it running, all other requests under way are aborted, and what is shown is of the latest click. |
| SubmissionUi.NothingAfterUnmount | frontend/src/tsx/run.tsx:38-45 | After unmounting nothing is shown or started any more, whatever responses come. |
| SubmissionUi.CurrentResponseIsShown | frontend/src/tsx/run.tsx:68-75 | The current request's response is shown, any other leaves the page as it is. |
| ShellExamples.QuoteIsOneWord | frontend/src/functions/submission_examples.ts:12-15 | For every string the shell reads `quoteShell(value)` as one word equal to it. |
| ShellExamples.CurlExampleSendsTheRequest | frontend/src/functions/submission_examples.ts:57-68 | The shell runs curl with exactly the words `curl`, the endpoint under the origin without trailing slashes, `-H`, the content type, `--data-binary` and `@-`, expanding nothing, and gives it exactly the JSON body on standard input, which parses to the command, or the sample for an empty one, and the problem. |
| ShellExamples.OneLineHereDoc | frontend/src/functions/submission_examples.ts:63-67 | A body of one line that is not the delimiter is delivered unchanged. |

## Left out

- Docker, HTTP, SSH, Git and Compose appear as steps with an outcome; `_reconcile_stale_containers`, image and mount validation and host checks are one such step each.
- A container's name and its Docker ID are one identifier in the pool model, so the name-to-ID lookup of `_cleanup_pending_container` is a step on that identifier.
- `ThreadPoolExecutor.submit` is atomic in the pool and slot models; only the log executor, whose code handles it, has a submit that raises after queueing.
- Image pixels: Pillow is a function from payloads to pixels that may fail; its memory and frame limits are part of that function.
- Request IDs, logging, CORS, settings, database role grants and the health endpoints.
- SandboxPoolTheorems.PoolAddsUp: assumes, as the application's startup does, that executions are admitted only after `initialize_pool` has returned.
- RateLimiter.WindowBound: is over real numbers; floating-point rounding is not modelled.
- Migrations.EverySequenceStaysManaged: assumes that a failed statement rolls the whole transaction back and that calls do not overlap, as the advisory lock provides.
- Retention.NeverMoreThanMaxRows: assumes one commit after another and increasing IDs; text normalization of the stored fields is not modelled.
- Migrations.BackfillMeaning: an output cell is copied as it is; conversions by a column's own type are not modelled.
- Deployment.Deployment.Execute: record files are written whole or not at all; a signal arrives in a call to the outside, as its exception; the journal line before the `FAILED` check is not a step; Compose stopping or starting only some services counts as the call's effect or not.
- Json.ParsePrinted: reads only text without insignificant whitespace, as both writers produce it; its texts are well-formed, so the `\u` escape of a lone surrogate is not among them.
- Responses.RunnerResponseFits: image data is taken to be plain text, as Base64 is, and the two integers to have at most 64 digits; the models themselves bound neither.
- Responses.PublicResponseFits: the integers and the time of submission are taken to have at most 64 characters each.
- ContainerManagerObject.ContainerManager.CreateAndAdd: is the call without interference, where the second shutdown check cannot fire; with other threads it is the step `SandboxPool.ActAdd`.
- SubmissionUi.ShownIsLatest: React's rendering and the language switch are not modelled; `setSubmissionState` takes effect at once.
- ShellExamples.CurlExampleSendsTheRequest: the shell reader refuses everything it would expand instead of modelling expansions; the Python example and the problem-listing examples are not modelled.
- RunnerHttp.Call: constant-time comparison and the ASGI response messages are not modelled; `int` of a header value is a parameter.

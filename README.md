# Photobooth control loop

A model of libgphoto2's `sample-photobooth` example: a long-running program
that keeps a tethered camera busy. Each pass of its main loop

1. reads and clears the `capture_now` latch (set by SIGUSR1) and, if it was
   set, takes a full capture with `capture_to_file` under the name
   `image-%03d.jpg` of the next value of the counter `capturecnt`;
2. captures a preview and saves it as `preview.jpg`, exiting with status 1
   if any of the three calls involved fails;
3. drains the camera's event queue: it polls `gp_camera_wait_for_event`
   until a poll fails or reports `GP_EVENT_TIMEOUT`, downloads every
   `GP_EVENT_FILE_ADDED` file to the next `image-%03d.jpg`, deletes it on the
   camera, and only reports the other event kinds.

`capture_to_file` captures, creates the local file, wraps its descriptor,
downloads, and deletes the file on the camera. If wrapping or downloading
fails, it unlinks the local file, leaves the camera file alone and returns
the error.

Every libgphoto2 and filesystem call is treated as an input, namely the
reply it gave (module `GPhoto`). What remains is the state the loop keeps:
the counter, the two latches, the set of local files, the set of camera
files, the delete requests issued, the image names handed out (the successive
contents of `output_file`), and whether the process has exited.

Files:

- `wrappers.dfy`: `Option`.
- `image_names.dfy` (module `ImageNames`): `%03d` formatting, a parser that
  reads the number back, and the naming lemmas.
- `gphoto.dfy` (module `GPhoto`): `GP_OK`, camera file paths, event kinds,
  and the replies of the foreign calls.
- `photobooth.dfy` (module `Photobooth`): the `World` snapshot and the pure
  `After*` functions that define each step. It also holds class `Booth`,
  whose methods run the same steps by updating fields in place. Each method
  is proved equal to its `After*` function.
- `loop_properties.dfy` (module `LoopProperties`): the lemmas about the
  `After*` functions.

Where the code and the design description disagree, the model follows the
code:

- The design says a `FileAdded` download goes through the same
  cleanup-on-failure path as `capture_to_file`. The code ignores every
  return code in that branch. The local file stays even when the download
  failed, and the camera delete is issued anyway (`FileAddedIgnoresDownload`).
- The design says the reload-configuration latch is read and cleared once
  per request. The code sets `read_config` and never reads or clears it, so
  `readConfig` passes through every step unchanged.
- The design calls for exclusive, truncating creation of local files. The
  code opens with `O_CREAT | O_WRONLY`. Only whether a file exists is
  modelled.

## Model

| member | source | states |
|---|---|---|
| `ImageNames.Decimal` | examples/sample-photobooth.c:104 | `%d` of a non-negative counter is a non-empty digit string that starts with '0' only for 0 |
| `ImageNames.ValueOfDecimal` | examples/sample-photobooth.c:104 | reading the decimal digits of n back gives n |
| `ImageNames.ValueOfPadded` | examples/sample-photobooth.c:104 | the zero padding of `%03d` does not change the value read back |
| `ImageNames.Format03Value` | examples/sample-photobooth.c:104 | `%03d` of n is all digits and reads back as n |
| `ImageNames.ImageNumberOfName` | examples/sample-photobooth.c:147 | round trip: the counter value can be parsed back out of `image-%03d.jpg` |
| `ImageNames.ImageNameInjective` | examples/sample-photobooth.c:147 | two counter values give the same image name if and only if they are equal |
| `ImageNames.DecimalLength` | examples/sample-photobooth.c:104 | n has at most k decimal digits if and only if n < 10^k |
| `ImageNames.ImageNameLength` | examples/sample-photobooth.c:147 | image names have at least 13 characters, and exactly 13 if and only if the counter is below 1000 |
| `ImageNames.ImageNamesBetweenSize` | examples/sample-photobooth.c:147 | a range of counter values lo..hi-1 names exactly hi - lo distinct files |
| `ImageNames.NameRangeDistinct` | examples/sample-photobooth.c:147 | the names of consecutive counter values, listed in order, are pairwise distinct |
| `Photobooth.DrainLength` | examples/sample-photobooth.c:133-182 | the drain consumes a prefix of the poll results that ends at the first error return or TIMEOUT (or at the end of the input), and nothing before that last element stops it |
| `Photobooth.Booth.constructor` | examples/sample-photobooth.c:74 | the loop starts with counter 0, both latches clear, no name handed out, no delete issued and the process running |
| `Photobooth.Booth.CaptureToFile` | examples/sample-photobooth.c:26-54 | the in-place steps of `capture_to_file` give the state and return code of `AfterCaptureToFile` |
| `Photobooth.Booth.CapturePreview` | examples/sample-photobooth.c:111-127 | the preview step sets the exit state on the first failing call, else writes `preview.jpg` |
| `Photobooth.Booth.HandleEvent` | examples/sample-photobooth.c:142-179 | the switch on the event type updates the state as `AfterEvent` says: FILE_ADDED records the reported file on the camera, hands out the next name and removes the camera file only if the delete succeeds |
| `Photobooth.Booth.DrainEvents` | examples/sample-photobooth.c:133-182 | the polling loop consumes exactly `DrainLength` results and leaves the state `AfterDrain` gives |
| `Photobooth.Booth.Iterate` | examples/sample-photobooth.c:95-182 | one pass (latch, on-demand capture, preview, drain) leaves the state of `AfterIteration`; the drain runs only if the preview succeeded |
| `Photobooth.Booth.Run` | examples/sample-photobooth.c:95-183 | a bounded number of passes, each preceded by the SIGUSR1/SIGUSR2 latches being set if those signals arrived, stopping at the first exit, leaves the state of `AfterRun` |
| `LoopProperties.CaptureFailureChangesNothing` | examples/sample-photobooth.c:32-33 | a failed capture returns its error with no local file created, no camera file added and no delete issued |
| `LoopProperties.TransferFailureCleansUp` | examples/sample-photobooth.c:35-49 | if wrapping or downloading fails, fn is unlinked, the captured file stays on the camera, no delete is issued and the failing call's error is returned |
| `LoopProperties.CaptureDeletesOnlyAfterDownload` | examples/sample-photobooth.c:43-53 | `capture_to_file` returns GP_OK if and only if capture, wrap and download succeed, whatever the delete replies; a delete of the captured file is issued exactly then |
| `LoopProperties.OtherEventsChangeNothing` | examples/sample-photobooth.c:158-178 | FOLDER_ADDED, CAPTURE_COMPLETE, TIMEOUT, UNKNOWN and unrecognised event types leave counter, files and latches unchanged |
| `LoopProperties.FileAddedIgnoresDownload` | examples/sample-photobooth.c:143-157 | FILE_ADDED takes the next image number, creates the file if open succeeded and always issues the delete; the reported file stays on the camera if and only if the delete fails; the outcome does not depend on the wrap or download return codes |
| `LoopProperties.DrainCounter` | examples/sample-photobooth.c:133-182 | a drain raises the counter by the number of successfully polled FILE_ADDED events it consumed |
| `LoopProperties.DrainIgnoresUnconsumed` | examples/sample-photobooth.c:140-181 | poll results after the one that stops the drain have no effect on it |
| `LoopProperties.DrainWithoutFileAddedChangesNothing` | examples/sample-photobooth.c:158-178 | a drain none of whose consumed, successfully polled events is FILE_ADDED changes nothing |
| `LoopProperties.DrainCreatesOnlyNewImages` | examples/sample-photobooth.c:143-157 | the drain does not lower the counter or touch the latches or the exit state, the names it hands out are those of the counter values it used, in order, and every local file it creates is one of them |
| `LoopProperties.DrainCreatesOneFilePerEvent` | examples/sample-photobooth.c:147-150 | when every consumed, successfully polled FILE_ADDED opened its file, the new local files are exactly the names of the counter values the drain handed out |
| `LoopProperties.DrainKeepsFiles` | examples/sample-photobooth.c:133-182 | the drain never removes a local file |
| `LoopProperties.OnDemandLatch` | examples/sample-photobooth.c:102-106 | if the latch was set, it ends clear, the counter rises by one and at most one capture happens, under the name of the old counter value; the old counter value's name is the one handed out; if it was clear, nothing changes |
| `LoopProperties.PreviewFailureIsTerminal` | examples/sample-photobooth.c:111-127 | a pass ends in the exit state if and only if a preview call failed, then with nothing after the on-demand step done; otherwise `preview.jpg` exists |
| `LoopProperties.PreviewIsNotAnImage` | examples/sample-photobooth.c:122 | `preview.jpg` is never one of the image names, so saving a preview never overwrites a capture |
| `LoopProperties.IterationCounter` | examples/sample-photobooth.c:95-182 | one pass raises the counter by 1 if the latch was set, plus the FILE_ADDED events its drain consumed; the latch ends clear and `read_config` is untouched |
| `LoopProperties.IterationCreatesOnlyNewImages` | examples/sample-photobooth.c:95-182 | a pass hands out the names of the counter values it used, in order, and every local file it creates is `preview.jpg` or one of them |
| `LoopProperties.RunCreatesOnlyNewImages` | examples/sample-photobooth.c:95-183 | over any run the counter never decreases, the names handed out are those of the counter values used, in order, every new local file is `preview.jpg` or one of them, and a set `read_config` is never cleared |
| `LoopProperties.NoTwoCapturesShareAName` | examples/sample-photobooth.c:95-183 | starting from the loop's initial names (none, counter 0), every run hands out one name per counter value and never the same name twice |

## Left out

- Signal handlers and their installation (lines 56-68, 83-84). Each round has a `signal` flag (SIGUSR1) that sets `capture_now`, and a `reload` flag (SIGUSR2) that sets `read_config`, before the latch is read. A signal that arrives during a pass, after the latch check, counts for the next round.
- Program start-up (lines 75-93): the greeting, the log hook, the context and `gp_camera_init`. The model starts at the top of the loop with the initial local and camera files given.
- The contents of images and previews, and the open flags (no `O_TRUNC`, mode 0644). Only whether a file exists is modelled.
- What a call does internally. Each libgphoto2 or filesystem call is represented only by its reply. `open` becomes "the file now exists" or not, and `unlink` always succeeds in removing the name. A failed `gp_file_save` is assumed to leave the local files as they were.
- Diagnostics (`printf`, `fprintf`, `errordumper`) and memory management (`free`, `gp_file_free`, `gp_file_unref`). They have no effect on the modelled state.
- The infinite outer loop and the unreachable `gp_camera_exit` (lines 95, 184). `Booth.Run` runs a finite sequence of passes.
- `Photobooth.DrainLength`: the drain's input is a finite sequence, and running out of it ends the drain. The program itself would keep polling until an error or a TIMEOUT.
- `Photobooth.Booth.Iterate`: `capturecnt` is a C `int`. It is modelled as an unbounded natural number, because overflow only happens after 2^31 captures. The 32-byte `output_file` buffer always holds the name, since a non-negative `int` has at most 10 digits.
- Concurrency: the latches are plain fields. The race between a signal and the clearing of `capture_now` is not modelled.

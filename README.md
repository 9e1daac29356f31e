# AI Photo Studio wizard, modelled in Dafny

The application lets a user upload a portrait, pick a style (professional,
creative or a free-text instruction) and browse and download the variations a
remote image service produces. This project models the sequential logic of its
front end, one Dafny module per source file:

- `Types` (`types.ts`): the wizard steps, the generation modes, the uploaded
  image record, and the arguments of an `onGenerate` call.
- `App` (`App.tsx`): the wizard controller as a class `Wizard` with the four
  fields `step`, `uploadedImage`, `generatedImages` and `error`, and its
  handlers for upload, generation and start-over, plus the renderer's fallback
  guards. The two service calls are inputs. `generatePrompts` is an
  `Outcome<seq<string>>` (the prompts returned, or the value thrown). The edits
  are one `Outcome<string>` per issued request, in request order. An empty
  string is a falsy result. The pure part of `handleGeneration` is the function
  `Generate`, built from `EditRequests` (the `slice(0, 5)` and the custom-prompt
  branch), `SettleAll` (`Promise.all`), `ValidImages` (`filter`) and
  `ErrorMessage` (the `catch` block). The class invariant `Consistent()` says
  that the options and loading steps have an upload and the results step also
  has images. Every handler keeps it, so the two "should not happen" fallbacks
  in `renderStep` are shown to be dead code.
- `ResultsDisplay` (`components/ResultsDisplay.tsx`): a class `Viewer` with a
  cursor over `[original, ...generated]`. It has wrap-around previous and next
  (proved equal to `(i ± 1) mod len`, and inverse to each other), thumbnail
  selection by click or by Enter/Space, and the download link. The download
  file name spells the index in decimal. The names are proved distinct for
  distinct indices, through a round trip of the decimal rendering.
- `GenerationOptions` (`components/GenerationOptions.tsx`): a class `Form`
  holding `customPrompt`. It also models JavaScript's `trim` over the
  ECMAScript whitespace and line-terminator characters, the submit guard, the
  disabled flag, and the calls the two style cards make.
- `UploadArea` (`components/UploadArea.tsx`): the `image/` prefix check, the
  construction of the `UploadedImage` once the read and the decode have
  completed (each an optional input), the choice of the first file, and a class
  `DropZone` holding `isDragging`.
- `LoadingScreen` (`components/LoadingScreen.tsx`): the message tick
  (`indexOf` plus one, modulo the list length) and the progress tick (a random
  increment capped at 95) as functions. A class `Screen` holds `message` and
  `progress`. Progress is a `real`, and the random draw is a parameter `r` with
  `0 <= r < 1`.
- `Modular`: facts about Euclidean remainder that the two wrap-around cursors
  use.

## Model

| member | source | states |
|---|---|---|
| `App.HasCustomPrompt` | App.tsx:30 | the custom branch is taken exactly in custom mode with a prompt that is neither missing nor the empty string, the two falsy values of an optional string |
| `App.EditRequests` | App.tsx:30-35 | only professional and creative mode can throw, and then with what the prompt call threw; at most one request is issued in custom mode and at most five otherwise |
| `App.ErrorMessage` | App.tsx:48 | an `Error` shows its own message; any other thrown value shows the fixed, non-empty fallback text |
| `App.SettleAll` | App.tsx:35-36 | the batch returns exactly when every edit returned, and then holds every returned value in request order; otherwise it rejects with the value of an edit that threw and that only returned edits precede |
| `App.ValidImages` | App.tsx:39 | the filtered images are no more than the inputs and are exactly the non-empty input strings |
| `App.ValidImagesAppend` | App.tsx:39 | filtering distributes over concatenation, so survivors keep their original order |
| `App.ValidImagesKeepsTruthy` | App.tsx:39 | a list of non-empty images passes the filter unchanged |
| `App.ValidImagesEmptyIff` | App.tsx:39-40 | nothing survives the filter exactly when every result is empty |
| `App.SettleAllFirstThrow` | App.tsx:36 | when the edit at position i throws and all edits before it returned, the batch rejects with what edit i threw |
| `App.Generate` | App.tsx:28-45 | a successful generation yields a non-empty list of non-empty images |
| `App.CustomModeRequests` | App.tsx:30-32 | custom mode never consults the style prompts; a non-empty prompt makes exactly one edit request with that prompt, and an empty or missing prompt makes none |
| `App.CustomWithoutPromptFails` | App.tsx:30-41 | custom mode with an empty or missing prompt issues no request and ends with the no-images error |
| `App.StyleModeRequests` | App.tsx:33-36 | professional and creative mode request one edit for each of the first min(N, 5) style prompts, in prompt order; a throwing prompt call issues none and propagates what it threw |
| `App.GenerateSucceedsIff` | App.tsx:39-45 | success exactly when the prompts call and every edit returned and at least one edit returned a non-empty image; the images are then the non-empty results in request order |
| `App.GenerateFailureMessage` | App.tsx:40-50 | a thrown prompt call or the first throwing edit sets the error to that value's message, or to the fallback text for a non-Error; all-empty results give the no-images message |
| `App.GenerateBounded` | App.tsx:30-36 | at most five images result, and at most one in custom mode |
| `App.SubmittedPromptMakesOneRequest` | App.tsx:30-32 | a prompt the options form submits is non-empty, so it becomes exactly one edit request with the same text |
| `App.Wizard.constructor` | App.tsx:11-14 | the wizard starts at upload with no image, no results and no error |
| `App.Wizard.HandleImageUpload` | App.tsx:16-19 | stores the image and moves to options; generated images and error are untouched |
| `App.Wizard.BeginGeneration` | App.tsx:21-26 | without an upload nothing changes; otherwise the step becomes loading and error and generated images are cleared, before any service outcome is an input |
| `App.Wizard.HandleGeneration` | App.tsx:21-52 | without an upload nothing changes; otherwise the step becomes results with exactly the generated images, or options with no images and the error message; the upload is kept and consistency is preserved |
| `App.Wizard.HandleStartOver` | App.tsx:54-59 | from any state: step upload, no image, no results, no error |
| `App.Wizard.RenderStep` | App.tsx:61-107 | each step renders its view; options without an upload and results without an upload or images start over and render nothing; in a consistent state the fallback never fires and nothing changes |
| `ResultsDisplay.Prev` | components/ResultsDisplay.tsx:16 | the previous index stays in range and equals (i + len - 1) mod len |
| `ResultsDisplay.Next` | components/ResultsDisplay.tsx:20 | the next index stays in range and equals (i + 1) mod len |
| `ResultsDisplay.PrevNextInverse` | components/ResultsDisplay.tsx:15-21 | previous and next undo each other |
| `ResultsDisplay.NextTimes` | components/ResultsDisplay.tsx:19-21 | any number of next presses keeps the cursor in range |
| `ResultsDisplay.NextTimesModulo` | components/ResultsDisplay.tsx:19-21 | k next presses from i land on (i + k) mod len |
| `ResultsDisplay.FullRoundReturns` | components/ResultsDisplay.tsx:19-21 | len next presses return to the start |
| `ResultsDisplay.NavigationMovesIffSeveral` | components/ResultsDisplay.tsx:59 | previous and next move the cursor exactly when there is more than one image, which is the condition for showing them |
| `ResultsDisplay.Decimal` | components/ResultsDisplay.tsx:26 | the index is rendered as a non-empty string of decimal digits with no leading zero |
| `ResultsDisplay.DecimalRoundTrip` | components/ResultsDisplay.tsx:26 | reading the digits back gives the index |
| `ResultsDisplay.DownloadName` | components/ResultsDisplay.tsx:26 | the name is `original_image.png` exactly at index 0, and every name ends in `.png` |
| `ResultsDisplay.DownloadNameInjective` | components/ResultsDisplay.tsx:26 | distinct indices get distinct download names |
| `ResultsDisplay.Viewer.constructor` | components/ResultsDisplay.tsx:12-13 | the list is the original followed by the generated images in order; index 1 is selected when there is a generated image, else 0 |
| `ResultsDisplay.Viewer.HandlePrev` | components/ResultsDisplay.tsx:15-17 | the cursor moves to Prev and stays in range |
| `ResultsDisplay.Viewer.HandleNext` | components/ResultsDisplay.tsx:19-21 | the cursor moves to Next and stays in range |
| `ResultsDisplay.Viewer.SelectThumbnail` | components/ResultsDisplay.tsx:78 | a click selects that thumbnail's position |
| `ResultsDisplay.Viewer.ThumbnailKeyDown` | components/ResultsDisplay.tsx:83 | Enter or Space selects that thumbnail's position; any other key leaves the cursor unchanged |
| `ResultsDisplay.Viewer.ShowsNavigation` | components/ResultsDisplay.tsx:59 | the previous and next controls are shown exactly when pressing them would move the cursor, which is when the list has more than one image |
| `ResultsDisplay.Viewer.HandleDownload` | components/ResultsDisplay.tsx:23-31 | the link targets the selected image; it is named `original_image.png` at index 0 and `generated_image_<i>.png` otherwise |
| `GenerationOptions.TrimmableIsStandardWhiteSpace` | components/GenerationOptions.tsx:16 | `IsTrimmable`, the set of characters `trim` removes, holds exactly for the code points of the WhiteSpace and LineTerminator productions of ECMA-262 (sections 12.2 and 12.3) |
| `GenerationOptions.TrimStart` | components/GenerationOptions.tsx:16 | the result is the suffix left after dropping every leading whitespace character, and it does not start with whitespace |
| `GenerationOptions.TrimEnd` | components/GenerationOptions.tsx:16 | the result is the prefix left after dropping every trailing whitespace character, and it does not end with whitespace |
| `GenerationOptions.Trim` | components/GenerationOptions.tsx:16 | the trimmed text is the slice of the input left after dropping a whitespace-only prefix and a whitespace-only suffix, and it neither starts nor ends with whitespace |
| `GenerationOptions.TrimEmptyIffBlank` | components/GenerationOptions.tsx:16 | a prompt trims to nothing exactly when every character is whitespace |
| `GenerationOptions.TrimIdempotent` | components/GenerationOptions.tsx:16 | trimming twice is trimming once |
| `GenerationOptions.SubmitDisabled` | components/GenerationOptions.tsx:67 | `!customPrompt.trim()` holds exactly when every character of the prompt is whitespace |
| `GenerationOptions.CustomSubmission` | components/GenerationOptions.tsx:14-19 | a submission calls `onGenerate` exactly when the trimmed prompt is non-empty, and then with custom mode and the untrimmed prompt |
| `GenerationOptions.BlankPromptNotSubmitted` | components/GenerationOptions.tsx:16-17 | a blank or whitespace-only prompt makes no call; any other prompt is passed as typed |
| `GenerationOptions.Form.constructor` | components/GenerationOptions.tsx:12 | the prompt starts empty |
| `GenerationOptions.Form.OnChange` | components/GenerationOptions.tsx:60 | editing replaces the prompt with the new value |
| `GenerationOptions.Form.IsSubmitDisabled` | components/GenerationOptions.tsx:67 | the submit button is disabled exactly when the prompt is all whitespace |
| `GenerationOptions.Form.HandleCustomSubmit` | components/GenerationOptions.tsx:14-19 | submitting makes a call exactly when the button is enabled, and then calls custom mode with the prompt as typed |
| `GenerationOptions.Form.OnProfessionalClick` | components/GenerationOptions.tsx:42 | the professional card asks for professional mode with no prompt |
| `GenerationOptions.Form.OnCreativeClick` | components/GenerationOptions.tsx:48 | the creative card asks for creative mode with no prompt |
| `UploadArea.StartsWith` | components/UploadArea.tsx:14 | `startsWith` holds exactly when the string is at least as long as the prefix and agrees with it character by character |
| `UploadArea.ImageTypeIff` | components/UploadArea.tsx:14 | a type is accepted exactly when it is `image/` followed by anything |
| `UploadArea.HandleFile` | components/UploadArea.tsx:13-33 | a missing file or a type not starting with `image/` gives the alert; otherwise an image is handed on exactly when the read and the decode both complete, carrying the read data URL, the file's type and the decoded width and height |
| `UploadArea.FirstFile` | components/UploadArea.tsx:47 | only the first file of a non-empty list is taken; a missing or empty list gives none |
| `UploadArea.DropZone.constructor` | components/UploadArea.tsx:10 | no drag is in progress at first |
| `UploadArea.DropZone.OnDragOver` | components/UploadArea.tsx:35-38 | drag-over sets the drag flag |
| `UploadArea.DropZone.OnDragLeave` | components/UploadArea.tsx:40-42 | drag-leave clears the drag flag |
| `UploadArea.DropZone.OnDrop` | components/UploadArea.tsx:44-50 | a drop clears the drag flag and handles exactly the first dropped file; an empty drop handles nothing |
| `UploadArea.DropZone.OnFileSelect` | components/UploadArea.tsx:52-56 | a selection handles exactly the first selected file; an empty selection handles nothing |
| `LoadingScreen.IndexOf` | components/LoadingScreen.tsx:12 | the result is -1 exactly when the message is absent, and otherwise the first position holding it |
| `LoadingScreen.NextMessage` | components/LoadingScreen.tsx:11-15 | the next message is always an entry of the list |
| `LoadingScreen.NextMessageOfUnlisted` | components/LoadingScreen.tsx:12-14 | a message not in the list advances to the first entry |
| `LoadingScreen.NextMessageOfListed` | components/LoadingScreen.tsx:12-14 | in a list without duplicates, entry i advances to entry (i + 1) mod len |
| `LoadingScreen.MessageAfterModulo` | components/LoadingScreen.tsx:10-16 | in a list without duplicates, k ticks from entry i show entry (i + k) mod len |
| `LoadingScreen.FullCycleReturns` | components/LoadingScreen.tsx:13 | len ticks bring a listed message of a duplicate-free list back |
| `LoadingScreen.Increment` | components/LoadingScreen.tsx:24 | the increment is non-negative, below 3 while more than 20 points remain to 100 and below 1 afterwards |
| `LoadingScreen.ProgressStep` | components/LoadingScreen.tsx:19-26 | progress never exceeds 95, stays exactly 95 once it is at least 95, never decreases from at most 95, and grows by less than 3 (or 1 near the end) |
| `LoadingScreen.ProgressAfter` | components/LoadingScreen.tsx:18-27 | starting from 0, progress stays between 0 and 95 after any number of ticks |
| `LoadingScreen.ProgressMonotone` | components/LoadingScreen.tsx:24-25 | starting from 0, progress after more ticks is at least the progress after fewer |
| `LoadingScreen.Screen.constructor` | components/LoadingScreen.tsx:6-7 | the screen starts on the first message at 0 percent |
| `LoadingScreen.Screen.TickMessage` | components/LoadingScreen.tsx:10-16 | a message tick replaces the message by its successor and keeps progress; the message stays in the list |
| `LoadingScreen.Screen.TickProgress` | components/LoadingScreen.tsx:18-27 | a progress tick applies the step, never decreases progress and keeps it within 0 to 95 |

## Left out

- Markup, CSS classes, `InfoCard`, `OptionCard` and the icons: presentation only. So are the error banner (`error && …`) and the "No image to display" placeholder.
- The image service (`services/geminiService`) is not part of this model. What `generatePrompts` and each `editImage` call returned or threw is an input.
- `App.Generate`: it requires one settled outcome per issued edit request (`AnswersRequests`). This stands for the service answering every request exactly once; it is not a check the source makes.
- `App.SettleAll`: when several edits of a batch throw, `Promise.all` rejects with whichever rejection happens first in time. Timing is not modelled, so the model takes the first throwing edit in request order.
- `async`/`await` scheduling is not modelled. The batch fulfils only once every edit has returned, and rejects as soon as one throws; this timing is not modelled. Neither are the closures that capture `uploadedImage`. A generation is one step from the settled outcomes to the new state. A start-over while loading cannot be triggered from the loading screen, so it is not modelled.
- `Promise.all` (App.tsx:36) rejects the whole batch when one edit throws; the error text is then that value's message, or the fallback text for a non-Error.
- `FileReader`, the `Image` decode callbacks, the `alert` and the hidden input's `click()` (the browse button and its Enter/Space handler) are browser I/O. Their outcomes are inputs, or the model leaves them out. The `accept` attribute of the file input only filters the picker, so it is not modelled.
- The creation of the download anchor, its `click()` and its append/remove in `handleDownload` are side effects. Only the link target and the file name are kept.
- `setInterval`/`clearInterval`, the 2500 ms and 500 ms periods, effect cleanup and `Math.random` are timers and randomness. The random value is the parameter `r`.
- `LoadingScreen.Screen.constructor`: it requires a non-empty message list. `LOADING_MESSAGES` (from `constants.ts`, which is not part of this model) is a fixed non-empty list. With an empty list the source would show `undefined`.
- Floating-point rounding of the progress value is not modelled: progress is a Dafny `real`.
- `console.error` and React's `useCallback` memoisation are not modelled.

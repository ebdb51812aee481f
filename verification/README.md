# EEG preprocessing wizard: a Dafny model of its page logic

The front end guides a user through a chain of preprocessing stages on a remote EEG
backend: upload, metadata, channel selection, montage, filtering, annotations and
epoching. Every stage produces a new artifact id. A shared tracker keeps the current
id, the id it replaced, and an append-only history of `(stage, artifactId)` steps. The
pipeline timeline and the dataset sidebar read and reset that tracker.

This project models the logic inside those pages as pure Dafny functions over immutable
records:

- the tracker and its two transitions (`tracker.dfy`);
- the shared stage-page submission protocol (`stage_page.dfy`). A page without a current
  dataset offers no form. Otherwise the page checks its fields locally and sends one
  request. Success records the returned id under the page's stage name. Failure shows
  an error and leaves the tracker alone;
- each stage page: its validators, its request bodies, its presets and its list
  operations (`upload.dfy`, `metadata.dfy`, `channels.dfy`, `montage.dfy`,
  `filter.dfy`, `annotations.dfy`, `epochs.dfy`);
- the multi-select toggle shared by the channel and event pickers (`selection.dfy`);
- the timeline's projections of the history (`timeline.dfy`);
- the sidebar's restart-from-dataset and delete (`sidebar.dfy`).

Supporting modules:

- `base.dfy` defines `Option`, the order-keeping filter `Keep` (JavaScript's
  `Array.prototype.filter`), `Find` (`Array.prototype.find`) and subsequences.
- `strings.dfy` defines JavaScript's `trim` over its full white-space and
  line-terminator set, truthiness of optional strings, `includes`, and ASCII
  `toLowerCase`.
- `numbers.dfy` defines a reader for plain decimal literals.

`parseFloat` is not modelled: every page that parses takes a `Parser`
(`string -> Option<real>`, where `None` stands for NaN) as a parameter. Facts about the
literals written by presets hold for any parser that agrees with the decimal-literal
reader on plain decimals (`Numbers.AgreesOnDecimals`).

Backend replies are reduced to what the pages read from them:

- an id, or a failure with its `detail` and status text (`StagePage.Reply`);
- fetched data, or a failed status (`StagePage.Fetch`).

Behaviours of the code that the contracts make explicit:

- **Sidebar restart keeps the old id as previous.** Confirming a dataset in the sidebar
  calls `reset()` and then `setArtifactId(id, "upload")` in one handler. React batches
  the updates. So the history restarts from the chosen dataset, but the previous id is
  the id that was current before the reset, not null (`Sidebar.ConfirmSelectVersusSequential`).
- **The timeline shows a stage's first artifact.** It shows the artifact of the first
  step of each stage, so re-running a stage does not change the id displayed
  (`Timeline.FirstArtifactStays`). Stages it does not list (annotations, epochs) never
  change a row.
- **An upload reply without any id still records a step.** If the reply carries none of
  `id`, `dataset_id` and `uuid`, an "upload" step with an empty id is still appended, no
  dataset becomes current, and the form reappears (`Upload.UploadWithoutIdLeavesNoDataset`).
- **Metadata is recorded once per completed run.** A run of the metadata page's effect
  that starts after a "metadata" step was recorded records nothing more
  (`Metadata.LoadMetadataIdempotent`). Runs that overlap are not covered (see "Left out").
- **Filter fields accept 0.** The filter page accepts 0 in either field, even though its
  message says "must be a positive number".
- **A whitespace-only low field can block a valid filter.** Because `lFreq` is tested for
  truthiness rather than after trimming, a whitespace-only low field makes the filter
  low-pass but is then rejected by the low-frequency check, even when the high field is
  valid (`FilterPage.BlankLowFieldIsRefused`, for a `parseFloat` that reads such a field
  as NaN). The model follows the code.

## Model

| member | source | states |
|---|---|---|
| `Tracker.Init` | src/context/preprocessing-context.tsx:22-24 | a session starts with no current id, no previous id and an empty history |
| `Tracker.SetArtifactId` | src/context/preprocessing-context.tsx:26-33 | for any stage name: `id` becomes current, the old current id becomes previous, and exactly one step `(stage, id)` is appended with all earlier steps unchanged |
| `Tracker.Reset` | src/context/preprocessing-context.tsx:35-39 | from any state: both ids null and the history empty |
| `Tracker.CompletedIffFound` | src/app/preprocessing/metadata/page.tsx:30 | a stage counts as completed (`history.some`) exactly when searching the history for it (`history.find`) finds a step |
| `Tracker.ResetIdempotent` | src/context/preprocessing-context.tsx:35-39 | resetting twice is resetting once, and the reset state keeps "current is the last step" |
| `Tracker.SetArtifactIdKeepsCurrentIsLast` | src/context/preprocessing-context.tsx:26-33 | after a call the current id is the artifact of the newest step and the stage counts as completed |
| `Tracker.ReplayTracksLastCall` | src/context/preprocessing-context.tsx:26-33 | after any non-empty run of calls: the history grows by exactly those steps in order, current is the last call's id and the newest step's artifact, and previous is the id of the call before it (or the starting current id after one call) |
| `Tracker.ReplayCompleted` | src/context/preprocessing-context.tsx:26-33 | after a run of calls a stage is completed exactly when it was before or some call named it |
| `StagePage.FailureText` | src/app/preprocessing/montage/page.tsx:57-60 | a failed request shows the backend's `detail` when the page reads it and it is non-empty, otherwise the page's prefix followed by the status text |
| `StagePage.Submit` | src/app/preprocessing/montage/page.tsx:40-75 | a request goes out exactly when a dataset is current and the local check passes; a refused check shows its message; only a sent and successful request records `(stage, id)`; every other outcome leaves the tracker as it was |
| `StagePage.SubmitAdvancesByOneStep` | src/app/preprocessing/montage/page.tsx:40-75 | a submission either leaves the tracker untouched or appends one step of the page's stage carrying the returned id |
| `StagePage.FailureKeepsCurrent` | src/app/preprocessing/montage/page.tsx:57-71 | a refused or failed submission changes neither the current id nor the history |
| `Upload.ChooseFile` | src/app/preprocessing/page.tsx:21-27 | an empty choice changes nothing; a file replaces the old one and clears the error |
| `Upload.ArtifactIdOf` | src/app/preprocessing/page.tsx:52 | the id is one of the three reply fields, and it is empty only when all three are |
| `Upload.ArtifactIdIsFirstPresent` | src/app/preprocessing/page.tsx:52 | the id is the first non-empty field in the order `id`, `dataset_id`, `uuid` |
| `Upload.HandleUpload` | src/app/preprocessing/page.tsx:29-61 | without a file: the error "Please select a file first" and no request; on success the id is recorded as "upload" and the page moves to the metadata page; on failure "Upload failed: " and the status text, with the tracker untouched |
| `Upload.SuccessfulUploadHidesForm` | src/app/preprocessing/page.tsx:52-64 | a successful upload that carries an id completes "upload" and replaces the form by the "continue" card |
| `Upload.UploadWithoutIdLeavesNoDataset` | src/app/preprocessing/page.tsx:52-54 | a success reply without any id appends an "upload" step with an empty id and leaves no dataset current |
| `Metadata.LoadMetadata` | src/app/preprocessing/metadata/page.tsx:30-66 | without a current id the page redirects, fetches nothing and keeps its state; a fetched reply is shown, clears the error, and records "metadata" under the unchanged current id only if no such step exists; a failed fetch shows "Failed to fetch metadata: " and the status text, records nothing, and keeps the metadata already on screen |
| `Metadata.LoadMetadataIdempotent` | src/app/preprocessing/metadata/page.tsx:55-66 | once a fetch has succeeded, running the effect again records nothing more |
| `Metadata.FailedRerunKeepsMetadata` | src/app/preprocessing/metadata/page.tsx:52-66 | when the re-run triggered by the first record fails, the metadata the first run fetched stays on screen next to the error, and the stage stays completed |
| `Metadata.FirstVisitRecordsSameArtifact` | src/app/preprocessing/metadata/page.tsx:55-57 | the first successful visit appends `("metadata", current)` and leaves the current id in place |
| `Selection.Toggle` | src/app/preprocessing/channels/page.tsx:83-89 | the clicked item's membership flips and every other item's membership is unchanged; an absent item is appended at the end, and a present one is removed with every repeat while the rest keep their order |
| `Selection.ToggleRemovesOnlyItem` | src/app/preprocessing/channels/page.tsx:83-89 | deselecting removes every occurrence of the item and keeps the rest in order with their repeats |
| `Selection.ToggleTwiceRestores` | src/app/preprocessing/epochs/page.tsx:98-104 | selecting an absent item and deselecting it gives the list back |
| `Selection.ToggleKeepsNoDup` | src/app/preprocessing/channels/page.tsx:83-89 | a list without repeats stays without repeats, and each click changes its length by exactly one |
| `Channels.SelectChannel` | src/app/preprocessing/channels/page.tsx:83-89 | a click flips the channel's selection and keeps every other channel's; an unselected channel is appended to the selection, a selected one is removed with the rest kept in order; the channel list and error are unchanged |
| `Channels.SelectEeg` | src/app/preprocessing/channels/page.tsx:91-94 | "Select EEG" selects the available channels in the 10-20 set, in the order offered and with their multiplicities, and nothing else |
| `Channels.SelectAll` | src/app/preprocessing/channels/page.tsx:96-98 | "Select all" makes the selection exactly the offered channel list, same order and repeats |
| `Channels.ClearSelection` | src/app/preprocessing/channels/page.tsx:100-102 | "Clear" leaves nothing selected |
| `Channels.ChannelsLoaded` | src/app/preprocessing/channels/page.tsx:54-78 | fetched channels replace the list and are all selected when a "channels" step exists, otherwise the selection is kept; a failed fetch shows "Failed to fetch channels: " and the status text |
| `Channels.CompletedReloadSelectsAll` | src/app/preprocessing/channels/page.tsx:67-72 | after a recorded pick, a reload leaves the page as "Select all" would, and a non-empty list can be applied again unchanged |
| `Channels.CheckPick` | src/app/preprocessing/channels/page.tsx:104-124 | an empty selection is refused; otherwise the body is `mode: "manual"` with the selection |
| `Channels.ApplyEnabledPassesCheck` | src/app/preprocessing/channels/page.tsx:266 | the apply button is enabled exactly when the check would pass and nothing is in flight |
| `Channels.ConfirmChannels` | src/app/preprocessing/channels/page.tsx:104-145 | an empty selection sends nothing; success records "channels" with no error; failure shows "Failed to pick channels: " and the status text (the backend's `detail` is ignored) and leaves the tracker alone |
| `Montage.ClickPreset` | src/app/preprocessing/montage/page.tsx:36-38 | a preset click writes exactly that preset's value |
| `Montage.ClickHighlightsOnlyThatPreset` | src/app/preprocessing/montage/page.tsx:103-108 | after a preset click that preset, and no other, is drawn as selected |
| `Montage.InitialNameIsTenTwenty` | src/app/preprocessing/montage/page.tsx:27 | when the page opens only the 10-20 preset is drawn as selected |
| `Montage.CheckMontage` | src/app/preprocessing/montage/page.tsx:41-44 | a name blank after trimming is refused with "Please enter a montage name"; any other name is sent untrimmed |
| `Montage.ApplyEnabledPassesCheck` | src/app/preprocessing/montage/page.tsx:119 | the apply button is enabled exactly when the check would pass and nothing is in flight |
| `Montage.PresetsAreAccepted` | src/app/preprocessing/montage/page.tsx:16-22 | every preset value passes the check |
| `Montage.ConfirmMontage` | src/app/preprocessing/montage/page.tsx:40-75 | a blank name sends nothing and shows "Please enter a montage name"; success records "montage" with no error; a failed request shows the backend's `detail`, or "Failed to set montage: " and the status text, and leaves the tracker unchanged |
| `FilterPage.GetFilterType` | src/app/preprocessing/filter/page.tsx:18-26 | band-pass exactly when both sides are present, high-pass when only the low side is, low-pass when only the high side is, none otherwise; a side is present when non-blank and parseable |
| `FilterPage.FilterLabel` | src/app/preprocessing/filter/page.tsx:28-39 | every label ends in " Filter", and the label is "No Filter" exactly for the type with no cut-off |
| `FilterPage.FilterLabelsDistinct` | src/app/preprocessing/filter/page.tsx:28-39 | the four types have four different labels |
| `FilterPage.CheckFilter` | src/app/preprocessing/filter/page.tsx:76-105 | no filter gives "Please specify at least one frequency (low or high)"; then a bad low field gives "Low frequency must be a positive number", then a bad high field "High frequency must be a positive number", then a band-pass with low not below high "Low frequency must be less than high frequency for band-pass filter"; accepted exactly when none applies; the body has `l_freq` exactly when the low field is non-blank, `h_freq` likewise, with the parsed values |
| `FilterPage.BlankLowFieldIsRefused` | src/app/preprocessing/filter/page.tsx:77-93 | a low field of white space only, read as NaN, turns a valid low-pass filter into the refusal "Low frequency must be a positive number", while the same high field with an empty low field is accepted |
| `FilterPage.ApplyEnabledWhenCheckPasses` | src/app/preprocessing/filter/page.tsx:252 | whenever "Apply" would accept the fields and nothing is in flight, the button is enabled |
| `FilterPage.ApplyEnabledAdmitsNegativeLow` | src/app/preprocessing/filter/page.tsx:252 | the button looks only at the filter type: a negative low cut-off leaves it enabled, and "Apply" then refuses it with "Low frequency must be a positive number" |
| `FilterPage.ConfirmFilter` | src/app/preprocessing/filter/page.tsx:76-136 | a form the filter check refuses sends nothing and shows that check's message (no frequency, bad low, bad high, band order); success records "filter" with no error; a failed request shows the backend's `detail`, or "Failed to apply filter: " and the status text, and leaves the tracker alone |
| `FilterPage.PresetsPassChecks` | src/app/preprocessing/filter/page.tsx:197-238 | each preset's two fields pass the checks and send the intended band; two-sided presets are band-pass |
| `Annotations.FirstLine` | src/app/preprocessing/annotations/page.tsx:60 | the header line is a prefix of the text without line feeds, ending at the first line feed, or one character earlier when a carriage return stands just before that line feed |
| `Annotations.FirstLineStopsAtBreak` | src/app/preprocessing/annotations/page.tsx:60 | whatever follows the first `\n` or `\r\n` does not change the columns |
| `Annotations.EmptyFirstLineHasNoColumns` | src/app/preprocessing/annotations/page.tsx:60-61 | an empty text, or one starting with a line break, has no columns |
| `Annotations.ParseCsvHeader` | src/app/preprocessing/annotations/page.tsx:59-82 | the tokenizer loop computes the reference column list, and every column is non-empty, trimmed and free of double quotes |
| `Annotations.HeaderColumnsAreClean` | src/app/preprocessing/annotations/page.tsx:73-81 | every column is non-empty, already trimmed and free of double quotes |
| `Annotations.RawFields` | src/app/preprocessing/annotations/page.tsx:64-79 | the tokenizer always yields at least one field, the first one continues the field being read, and double quotes never reach a field |
| `Annotations.RawFieldsJoinBack` | src/app/preprocessing/annotations/page.tsx:68-79 | the tokenizer drops only double quotes: joining the fields with commas gives back the line with its double quotes deleted |
| `Annotations.QuotedSegmentStaysInField` | src/app/preprocessing/annotations/page.tsx:68-77 | for every quoted segment without inner quotes, its characters, commas included, join the field being read, and reading continues outside quotes after it |
| `Annotations.HeaderWithoutQuotes` | src/app/preprocessing/annotations/page.tsx:68-81 | a line without quotes gives its comma-separated pieces, trimmed, with empty ones dropped, in order |
| `Annotations.QuotedCommaExample` | src/app/preprocessing/annotations/page.tsx:68-81 | the header `"a,b",c` gives the columns `a,b` and `c` |
| `Annotations.EmptyNameMatchesNothing` | src/app/preprocessing/annotations/page.tsx:114-121 | no keyword matches the empty name, so a filled field is always truthy |
| `Annotations.AutoDetect` | src/app/preprocessing/annotations/page.tsx:108-125 | each field gets the first column, in header order, whose lower-cased name matches its keywords, or stays null |
| `Annotations.OneColumnCanFillTwoFields` | src/app/preprocessing/annotations/page.tsx:112-123 | the fields are guessed independently, so one column may fill both onset and duration |
| `Annotations.ChooseFile` | src/app/preprocessing/annotations/page.tsx:84-126 | no choice changes nothing; a header without columns shows "Could not parse CSV headers. Please check the file format." and clears the file, columns and mapping; otherwise the columns are listed and the mapping guessed |
| `Annotations.ClearFile` | src/app/preprocessing/annotations/page.tsx:138-145 | no file, no columns, nothing mapped |
| `Annotations.ChooseColumn` | src/app/preprocessing/annotations/page.tsx:219-222 | picking a column sets that field only |
| `Annotations.CheckAnnotations` | src/app/preprocessing/annotations/page.tsx:147-165 | no file: "Please select a CSV file"; a null field: "Please map all three columns: onset, duration, and description"; otherwise the file and the three column names go out |
| `Annotations.ApplyEnabledPassesCheck` | src/app/preprocessing/annotations/page.tsx:330 | the apply button is enabled exactly when the check would pass and nothing is in flight |
| `Annotations.ConfirmAnnotations` | src/app/preprocessing/annotations/page.tsx:147-193 | a missing file or an incomplete mapping sends nothing and shows the check's message (missing file first, then unmapped columns); success records "annotations" with no error; a failed request shows the backend's `detail`, or "Failed to set annotations: " and the status text, and leaves the tracker unchanged |
| `Annotations.GuessedMappingIsSubmittable` | src/app/preprocessing/annotations/page.tsx:110-155 | a fresh file whose guess filled all three fields passes the confirm guards as it stands |
| `Epochs.CheckBaseline` | src/app/preprocessing/epochs/page.tsx:161-179 | "none" gives null, "start_to_zero" gives `[null, 0]`, "custom" gives each side null when blank or its parsed value, refusing an unparseable start before an unparseable end |
| `Epochs.CheckEpochs` | src/app/preprocessing/epochs/page.tsx:140-199 | unparseable times give "Please enter valid time values for tmin and tmax"; then tmin not below tmax gives "tmin must be less than tmax"; then a refused baseline gives its own message; then a non-blank threshold that is not a positive number gives "Reject threshold must be a positive number"; an accepted form's body carries the window, the baseline, the threshold exactly when non-blank, the event filter exactly when events are selected, and the reference flag |
| `Epochs.ConfirmEpochs` | src/app/preprocessing/epochs/page.tsx:139-233 | a refused form sends nothing and shows its message; success records "epochs" with no error; a failed request shows the backend's `detail`, or "Failed to create epochs: " and the status text, and leaves the tracker unchanged |
| `Epochs.SelectEvent` | src/app/preprocessing/epochs/page.tsx:98-104 | a click flips the event's selection and keeps every other event's; an unselected event is appended, a selected one is removed with the rest kept in order; no other form field changes |
| `Epochs.SelectEventTwice` | src/app/preprocessing/epochs/page.tsx:98-104 | clicking an unselected event twice restores the form |
| `Epochs.SelectAllEvents` | src/app/preprocessing/epochs/page.tsx:106-108 | "Select all" makes the selection exactly the dataset's event list and changes nothing else in the form |
| `Epochs.ClearEvents` | src/app/preprocessing/epochs/page.tsx:110-112 | "Clear" selects no event |
| `Epochs.ClearedEventsSendNoFilter` | src/app/preprocessing/epochs/page.tsx:192-194 | with no event selected an accepted form sends no event filter |
| `Epochs.EventsLoadError` | src/app/preprocessing/epochs/page.tsx:79-89 | a 404 reads "Dataset not found", any other failure "Failed to fetch event names: " and the status text, success no error |
| `Epochs.ApplyPreset` | src/app/preprocessing/epochs/page.tsx:114-137 | each named preset writes its window fields ("-0.2"/"0.8", "-0.5"/"1.0", "-0.1"/"0.6", "0"/"2.0") and its baseline option and nothing else; any other name changes nothing |
| `Epochs.PresetWindowsAreOrdered` | src/app/preprocessing/epochs/page.tsx:114-137 | every named preset's window has tmin below tmax, so after a preset the form is accepted exactly when its threshold is |
| `Epochs.InitialFormRequest` | src/app/preprocessing/epochs/page.tsx:50-57 | the form as first shown sends the window -0.2 to 0.8 with the baseline from the start to 0 and nothing else |
| `Epochs.ReversedWindowRejected` | src/app/preprocessing/epochs/page.tsx:149-152 | tmin 1 and tmax 0.5 are refused with "tmin must be less than tmax" and nothing is sent |
| `Timeline.CurrentStage` | src/components/pipeline-timeline.tsx:24 | the current stage is the listed stage whose page is shown, or none |
| `Timeline.StageStatus` | src/components/pipeline-timeline.tsx:22-26 | completed exactly when some step has that stage; current only for a listed stage whose page is shown |
| `Timeline.StepArtifact` | src/components/pipeline-timeline.tsx:28-31 | the artifact of the earliest step of that stage, or none when there is no such step |
| `Timeline.ShortId` | src/components/pipeline-timeline.tsx:93-96 | the shown id is the first eight characters of a truthy artifact id, and nothing is shown otherwise |
| `Timeline.Rows` | src/components/pipeline-timeline.tsx:37-39 | one row per listed stage, in order, with its caption and page |
| `Timeline.StagesDistinct` | src/components/pipeline-timeline.tsx:11-17 | the listed stages have distinct ids and distinct pages |
| `Timeline.CurrentExactlyOnOwnPage` | src/components/pipeline-timeline.tsx:22-26 | a listed stage is current exactly on its own page |
| `Timeline.AtMostOneCurrent` | src/components/pipeline-timeline.tsx:22-26 | at most one row is drawn as current |
| `Timeline.CheckMarkMeansCompletedElsewhere` | src/components/pipeline-timeline.tsx:64 | the check mark is drawn exactly for a completed stage whose page is not shown |
| `Timeline.UnlistedStepChangesNothing` | src/components/pipeline-timeline.tsx:11-39 | a step of a stage that is not listed changes no row |
| `Timeline.FirstArtifactStays` | src/components/pipeline-timeline.tsx:28-31 | running a completed stage again leaves its displayed artifact unchanged |
| `Timeline.RecordedStageIsDrawn` | src/components/pipeline-timeline.tsx:22-31 | recording a listed stage for the first time with a non-empty id marks its row completed and shows a prefix of that id |
| `Sidebar.ClickDataset` | src/components/dataset-sidebar.tsx:74-77 | a click stores the dataset and opens the dialog, nothing else |
| `Sidebar.ConfirmSelect` | src/components/dataset-sidebar.tsx:79-86 | with a selection: current is its id, the history is the one step `("upload", id)`, previous is the id current before, and the dialog closes with the selection cleared; without one nothing changes |
| `Sidebar.ConfirmSelectVersusSequential` | src/components/dataset-sidebar.tsx:79-86 | the batched handler agrees with reset-then-record on current id and history, and differs only in keeping the old current id as previous |
| `Sidebar.ConfirmSelectStartsOver` | src/components/dataset-sidebar.tsx:79-86 | afterwards "upload" is the only completed stage and the current id is the newest step's artifact |
| `Sidebar.Delete` | src/components/dataset-sidebar.tsx:60-72 | an ok delete removes every dataset with that id and keeps the others in order with their multiplicities; a failed one changes nothing; the tracker is not an input |
| `Sidebar.DeleteIdempotent` | src/components/dataset-sidebar.tsx:66-68 | deleting an id a second time changes nothing |
| `Strings.TrimSpec` | src/app/preprocessing/filter/page.tsx:19-20 | `trim` returns the slice between leading and trailing white space, with non-space ends |
| `Strings.BlankIffAllSpace` | src/app/preprocessing/montage/page.tsx:41 | a string trims to "" exactly when every character is white space |
| `Strings.ContainsIffOccurs` | src/app/preprocessing/annotations/page.tsx:114 | `includes` holds exactly when the needle occurs at some position |
| `Base.KeepIsSelection` | src/app/preprocessing/channels/page.tsx:92 | `filter` gives a subsequence keeping every matching element with its multiplicity and no other |
| `Base.Find` | src/components/pipeline-timeline.tsx:29 | `find` returns a matching element that no earlier element matches, and nothing exactly when none matches |

## Left out

- All I/O is left out: `fetch`, `FormData`, `FileReader`, the 4 KB slice of the CSV file, router navigation and `encodeURIComponent`. Each backend reply is a parameter. `Annotations.CsvFile.head` stands for the text the reader produced. A redirect appears only as the `redirected` flag or as "no form offered".
- `parseFloat` is a parameter, not a model of prefix parsing or IEEE doubles. NaN is `None`, and infinities and rounding are not represented. Only the preset and initial-form lemmas constrain it, through `Numbers.AgreesOnDecimals`.
- StagePage.Submit: on a successful request the model shows no error. In the code, the channels, montage, filter, annotations and epochs pages call `refreshDatasets()` right after `setArtifactId`. The provider's value has no `refreshDatasets`, so that call throws a TypeError. The page's catch then shows the TypeError's message as its error, while the new step stays recorded. The model leaves this out because it is evidently unintended and its wording belongs to the JavaScript engine.
- A `fetch` that rejects (network failure) is left out. Every page then shows the exception's own message instead of `StagePage.FailureText` or the page's status-text message.
- Step timestamps (`new Date()`) are left out.
- `formatBytes` is left out because it is floating-point `Math.log`/`toFixed` formatting. The initial `fetchDatasets` is also left out: it is I/O, and its failure is only logged.
- `toLowerCase` is modelled for ASCII letters only.
- Strings are sequences of characters, not of UTF-16 code units. So `slice(0, 8)` and `trim` are exact only for text without surrogate pairs.
- `getFilterDescription` and the rest of the rendering are left out. The rendering covers captions, badges, spinners, the collapsed sidebar and the hover state. Only the state that decides behaviour is modelled: check marks, highlights and enabled buttons.
- Thrown exceptions the pages turn into generic messages are left out: a reply body that is not JSON, a `FileReader` failure ("Failed to read CSV file"), and non-`Error` throws.
- The `submitting`/`loading` flags appear only as the `submitting` argument of the button predicates. Races between in-flight requests and navigation are not modelled.
- Overlapping runs of the metadata page's effect are left out. The effect has no cleanup, and `setArtifactId` is one of its dependencies, re-created on every render; React's strict mode also runs it twice on mount. Two runs that both start before either records can each see `metadataCompleted` false and each append a "metadata" step. `Metadata.LoadMetadataIdempotent` covers only a run that starts after the previous one recorded.
- A reply `id` that is not a string is left out. The upload fields are strings, and "" stands for an absent field.
- The context hook's guard ("must be used within a PreprocessingProvider") is left out, along with the layout, the home and training pages, the visualizations panel and the image viewer. These only compose or render.

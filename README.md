# NDMO data-request portal: decision logic in Dafny

This project models the decision logic of a small data-request portal. A user types a free-text query. The portal works out which dataset it asks for ("bank", "smart city" or "hospital") and fetches that CSV from a storage bucket. It writes an audit row to a warehouse table and keeps a per-session request history. There are two front ends:

- `final.py` detects the category by keyword and fuzzy match, classifies the data and logs each completed request.
- `main.py` gets the category from a hosted model, sets a status message and logs every request it answers.

The project also models the per-row field rules of the synthetic hospital dataset generator (`hospital.py`).

Every external service is a parameter, and so are the random draws and the clock:

- the fuzzy matcher is `closeMatch: string -> Option<Category>`;
- storage is `bucket: string -> Download`, giving a parsed table or the text of the exception;
- the classifier is `classify: Table -> ClassifierReply`, giving a validated verdict, a reply that fails schema validation, or the exception the call raises;
- the model that names a category in `main.py` is `parse: string -> Option<string>`;
- `main.py`'s `get_storage_client()` is a `StorageClient`: a client, or the exception its construction raises;
- the warehouse insert is an `InsertResult`: the error list it reports, or the exception it raises;
- random draws are the index picked or the value drawn;
- clock readings are strings.

Modules:

- `Wrappers`: `Option`.
- `Text`: the Python string built-ins the code relies on, namely `str.lower`, `sub in s`, `s[:n]`, `str.replace`, `not s.strip()`, `str(n)` and `str.zfill`.
- `Categories`: `detect_category`. `Detected` is the reference definition and `DetectCategory` is the linear search with early return.
- `Storage`: the lookup and error part of `fetch_data_from_gcs`, which is the same in both front ends (`main.py` also opens its storage client first, outside the `try`; `Chatbot` models a raise there).
- `Requests`: the `randint(10000000, 99999999)` range of request ids and the result of a warehouse insert.
- `Portal`: the request flow of `final.py`. `Handle` states what one press of the send button does. The class `Session` holds the history, and `SendQuery` runs the flow step by step and appends to the history. Neither the classifier call (final.py:107) nor the insert (final.py:132) is inside a `try`, so an exception from either ends the run where it is raised: the outcomes `ClassifierAborted` and `LoggingAborted` add no history entry.
- `Chatbot`: the request flow of `main.py`. `ComputeStatus` reassigns the status message branch by branch, as the source does. The class `ChatSession` appends one entry per send. A send that reaches the fetch and whose storage client cannot be constructed (main.py:34) ends with `ClientFailed` and records nothing.
- `Hospital`: the age group, report date, region lookup and patient id. Dates are compared through Python's `date.toordinal`.

Notes on the source:

- `main.py` does not truncate its audit row's `decision` (main.py:202). The 255-character limit holds only for `final.py`'s rows (final.py:126-130).
- `main.py` reads the clock twice (main.py:200-201), so its `request_time` and `decision_time` may differ. In `final.py` they are one reading (final.py:121-122).
- In `main.py` an empty category string from the model counts as "not found", because `if category:` treats `""` as false (main.py:174, 190, 199).
- The three status markers in `main.py` are the characters the file holds: a check mark, a cross and an hourglass whose UTF-8 bytes were decoded as Mac Roman (main.py:172-185). The `str.replace` calls at main.py:202 strip exactly those sequences, so the model uses them literally.
- Both front ends report a present but empty table as a fetch failure (final.py:221, 273-274; main.py:176-181). Its status is then "Success", so the message reads "Failed to fetch data: Success".

## Model

| member | source | states |
|---|---|---|
| Text.Lower | final.py:35 | the lower-cased string has the same length and each character is the lower-case form of the input's |
| Text.Contains | final.py:37 | the substring test holds exactly when the label occurs at some position of the input |
| Text.IsBlank | final.py:210 | `not s.strip()` holds exactly when Python's `strip`, defined separately as `lstrip` then `rstrip` over Python's whitespace set, leaves nothing |
| Text.Truncate | final.py:126 | `s[:n]` is a prefix of `s` of at most `n` characters, is `s` itself when `s` is short enough, and has exactly `n` characters otherwise |
| Text.ReplaceAll | main.py:202 | replacing occurrences by the empty string never lengthens the text |
| Text.ReplaceAllAfterPrefix | main.py:202 | a prefix in which the pattern cannot start is copied unchanged and the replacement continues after it |
| Text.NatToString | hospital.py:85 | `str(n)` is a non-empty digit string without a leading zero that denotes `n` |
| Text.NatToStringLength | hospital.py:85 | `str(n)` has at most k+1 digits exactly when `n < 10^(k+1)` |
| Text.ZFill | hospital.py:85 | `s.zfill(width)` has length max(width, len(s)); an unsigned `s` ends it with only '0' before it, and a signed one keeps its sign first with the zeros after it |
| Text.ZFillDecimal | hospital.py:85 | `zfill` keeps a digit string's digits as its suffix, pads it to at least the width, and keeps its value |
| Categories.DetectCategory | final.py:33-42 | the search over the labels in order, with early return, gives exactly the reference answer `Detected` |
| Categories.FirstLabelWins | final.py:34-38 | the label at position k of the search order wins when it occurs and no earlier label does |
| Categories.BankAlwaysWins | final.py:34-38 | an input whose lower-case form contains "bank" gives bank, whatever else it contains |
| Categories.DetectedIsJustified | final.py:36-42 | every answer either occurs as a label in the lower-cased input, or no label occurs and the fuzzy matcher gave it |
| Categories.FallbackOnlyWithoutLabel | final.py:36-41 | when a label occurs, any two fuzzy matchers give the same answer; when none occurs, the answer is the matcher's answer for the lower-cased input |
| Categories.DetectionIgnoresCase | final.py:35 | inputs that differ only in letter case get the same answer |
| Categories.DetectionOfLowered | final.py:35 | detecting on the lower-cased input gives the same answer as on the input |
| Categories.SmartCityExample | final.py:204 | the placeholder query "Get Smart City data" gives smart city |
| Categories.GibberishExample | final.py:36-42 | a query with no label, "asdkjasd", gets exactly what the fuzzy matcher says |
| Storage.FetchData | final.py:53-69 | a table is returned exactly when the lower-cased category is in the file table and its object downloads; the status is then "Success", otherwise "Error fetching data: " with the error |
| Storage.FileMapIsCategoryTable | main.py:35-39 | the table's keys are exactly the three labels, each mapped to its category's object name |
| Storage.UnknownCategoryTouchesNoStorage | main.py:40-42 | an unknown category gives (None, "Invalid category") whatever the bucket holds |
| Storage.FetchIgnoresCase | main.py:40 | category spellings that differ only in case fetch the same result |
| Storage.DetectedCategoryResolves | final.py:54-61 | a detected category's label always resolves: a table is returned exactly when its object downloads, and "Invalid category" never appears |
| Portal.LogRow | final.py:119-131 | the audit row keeps id and requester, uses one clock reading for both times, and each text field is a prefix of its input: the input itself when it has at most 255 characters, its first 255 characters otherwise |
| Portal.Handle | final.py:209-274 | a blank query ends as `BlankQuery` and nothing else does; a non-blank query with no detected category ends as `CategoryUnknown`; a detected category without a present, non-empty table ends as a fetch failure carrying the fetch's own status; an unvalidated classifier reply ends as `ClassificationFailed` and a raising call as `ClassifierAborted`, each exactly when the table reached the classifier; a completed request had a returning insert and records the detected category |
| Portal.Session.constructor | final.py:179-180 | a new session starts with an empty history |
| Portal.Session.SendQuery | final.py:209-274 | the step-by-step flow ends as `Handle` says, and the history is extended by exactly the completed request's entry and nothing else |
| Portal.ClassifierOnlyOnNonEmptyTable | final.py:221-224 | a classification outcome occurs exactly when a category was found and its table is present and non-empty; otherwise the outcome does not depend on the classifier |
| Portal.CompletedIffClassified | final.py:226-272 | a request is added to the history exactly when it reaches the classifier, gets a verdict and the insert returns, and then exactly one entry is added |
| Portal.CompletedRequestRecords | final.py:246-270 | a completed request's row and entry share the in-range request id and the default requester; the row's times are equal; its verdict fields are prefixes of the verdict, the first 255 characters of a longer one; its requested data is the label; the entry keeps the category and the verdict in full |
| Portal.InsertExceptionSkipsHistory | final.py:246-261 | an insert that raises ends the run after the verdict with the row a returning insert would have sent, and adds no history entry; every other outcome is unchanged |
| Portal.ClassifierExceptionSkipsLogging | final.py:224-261 | a classifier call that raises ends the run with that error, no audit row and no history entry |
| Portal.LoggingFailureIsNonFatal | final.py:132-136 | the errors a warehouse insert reports change neither the outcome nor the history entry |
| Portal.FetchFailureReports | final.py:219-274 | the portal never reports "Invalid category", and a present but empty table is reported as a fetch failure with status "Success" |
| Portal.BlankQueryDoesNothing | final.py:210-211 | a blank or all-whitespace query is refused before detection, and the classifier is not reached |
| Chatbot.ComputeStatus | main.py:172-185 | the status message, reassigned branch by branch from "In Progress", ends as the reference `StatusMessage` |
| Chatbot.RemoveMarkers | main.py:202 | the three replacements never lengthen the text and keep text in which no marker can start |
| Chatbot.Row | main.py:196-203 | the audit row has the ticket id, no requester, "Confidential" exactly when a category was found and no classification otherwise, the two clock readings as its times, and a decision no longer than the status |
| Chatbot.Notice | main.py:205-212 | the success notice appears exactly when the insert returns no errors; a raised insert is caught and its exception text shown; reported errors are shown as reported |
| Chatbot.Respond | main.py:169-212 | the status shown is the status recorded in the history, the entry and the row carry the same ticket id, and the notice follows the insert result |
| Chatbot.SentEntry | main.py:188-193 | the appended entry has the ticket id, the final status message, the model's category when one was found and "Unknown" otherwise, and "Not specified" |
| Chatbot.SentRow | main.py:196-203 | the row's decision is "Could not identify category", "Approved", or "Failed to fetch data: " and the fetch status without markers, as the case is; its times are the two clock readings |
| Chatbot.ChatSession.constructor | main.py:158-159 | a new session starts with an empty history |
| Chatbot.ChatSession.Send | main.py:169-212 | a blank message changes nothing; a message whose category was found but whose storage client raises at main.py:34 changes nothing and reports the error; any other appends exactly `Respond`'s entry, with an in-range ticket id, whatever the insert reports |
| Chatbot.ApprovedIffFetched | main.py:174-177 | the status is "Approved" exactly when a category was found and its table is present and non-empty, and it never stays "In Progress" |
| Chatbot.NoCategoryNoFetch | main.py:183-185 | with no category the status is "Could not identify category" whatever the bucket holds |
| Chatbot.EmptyTableIsFetchFailure | main.py:176-182 | a present but empty table is reported as a fetch failure carrying the status "Success" |
| Chatbot.UnknownCategoryIsFetchFailure | main.py:175-181 | a model answer that is not in the file table is reported as the fetch failure "Invalid category" |
| Chatbot.DecisionText | main.py:202 | the decision is "Approved", "Could not identify category", or "Failed to fetch data: " followed by the fetch status with its markers removed |
| Hospital.Ordinal | hospital.py:54 | `date.toordinal()` of a valid date is positive and lies within its year's block of days after all earlier years |
| Hospital.OrdinalNextDay | hospital.py:54 | the ordinal counts days: the next day of a month has the next ordinal |
| Hospital.OrdinalNextMonth | hospital.py:54 | the first of a month follows the last day of the previous month |
| Hospital.OrdinalNextYear | hospital.py:54 | 1 January follows 31 December of the year before, across leap and common years |
| Hospital.AgeInYears | hospital.py:54 | the age is the floor of the day count divided by 365 |
| Hospital.AgeGroup | hospital.py:55-66 | the bucket of any age is one of the six labels |
| Hospital.CalculateAgeGroup | hospital.py:53-66 | the result is always one of the six labels |
| Hospital.AgeGroupBuckets | hospital.py:55-66 | label k is chosen exactly for the ages of bucket k: below 20, from 10k+10 to below 10k+20, or 60 and over |
| Hospital.AgeGroupMonotone | hospital.py:55-66 | an older age never falls in an earlier bucket |
| Hospital.RandomReportDate | hospital.py:68-71 | the report date is a valid first of a month in 2023, 2024 or 2025 |
| Hospital.ReportDatesCover | hospital.py:68-71 | every first of a month in 2023 to 2025 can be picked |
| Hospital.RegionsCoverHospitals | hospital.py:10-49 | every hospital a row can name has a region, so the lookup never fails |
| Hospital.RegionOf | hospital.py:90 | the region of a picked hospital is one of the three regions |
| Hospital.PatientId | hospital.py:85 | `str(i+1).zfill(3)` is a digit string of at least 3 characters that denotes i+1 |
| Hospital.PatientIdShape | hospital.py:85 | the patient id is a digit string of length at least 3, exactly 3 when i+1 is at most 999, and it denotes i+1 |
| Hospital.PatientIdsDistinct | hospital.py:85 | different rows get different patient ids |

## Left out

- Streamlit presentation is not modelled: page setup, styling, tabs, sidebar, widgets, spinner, the CSV download, the "Request Summary" (final.py:253-259) and the status table (main.py:214-226), and the sorting and rendering of the history (final.py:276-290, main.py:228-241). It is display only.
- The storage download and `pd.read_csv` are not modelled. They are the `bucket` parameter, which gives a parsed table or the exception text.
- The warehouse inserts (final.py:132, main.py:206) and `test_bigquery_insert` are not modelled. They are an error list or a raised message. Streamlit's display of an uncaught exception is not modelled either; the run simply ends with an aborted outcome.
- The hosted-model calls are not modelled: `classify_ndmo_data`, `parse_with_gemini` and chatbot.py. This includes the prompt, the retrieval corpus, the JSON schema and pydantic validation. They are oracles: `parse_with_gemini` gives a category or nothing, and `classify_ndmo_data` gives a validated verdict, a reply that fails validation, or an exception.
- `df.to_json(orient="records")` is not modelled. The classifier receives the table itself.
- The `safe_dataset` rows are kept as string-to-string maps. Python allows any JSON value in them.
- `difflib.get_close_matches` is not modelled: the Ratcliff/Obershelp ratio and the 0.6 cutoff are floating-point library code. Only its guarantee remains: it answers one of the three labels or nothing.
- Text.Lower: lower-cases ASCII letters only. Python's `str.lower` also maps non-ASCII letters, some of them to several characters.
- Chatbot.Found: treats the model's answer as an optional string. A reply whose `category` is not a string is not modelled.
- The final.py messages are outcome constructors, not strings: the blank-query warning, the detection error, and the classification-failed and logging notices.
- banking.py is not part of this model. It only samples random rows with Faker and floats.
- The hospital.py generation loop is not modelled, and neither are the Faker, float and `today` parts. This covers names, national ids, emails, dates drawn by Faker, the recovery rate, admission counts and the CSV write. Only the per-row field rules are modelled, and "today" is a parameter.
- Random draws are parameters: request ids and `random.choice` picks. The `randint` range is a precondition where a contract relies on it.

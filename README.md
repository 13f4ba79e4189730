# Blood diagnosis service — a verified model of its core

This project models in Dafny the core of a small clinical web service. The service
screens complete blood counts (CBC) for anemia and keeps the records of doctors and
patients around the screening. It covers:

- **CBC inference.** The column-alias table and the `norm` function that
  recognise a CBC parameter under its many spellings. Renaming an uploaded
  table to canonical names. Normalising the `Sex` column. Numeric coercion and
  dropping incomplete rows. The asset check before the classifier is loaded.
  Annotating each row with its label and diagnosis. The advisory report built
  from MCV, MCHC, RDW and haemoglobin.
- **The prediction service.** Dispatching an uploaded file to a reader by its
  extension. Turning a Parameter/Value listing into a one-row table. The
  service object that loads the model once. Batch prediction. The validation
  and result-shaping paths of a file upload and of manual input.
- **Records and access.** The access policies (account active, role,
  doctor-patient link, record ownership), the deactivation messages, medical
  history records, patients and the doctor-patient relation, contact-form
  messages, and profile updates.

Tables are column-major values (`Tables.Table`). A cell is a number, a text or missing.

The classifier, the scaler, the file readers, password hashing, random draws and
number formatting are function parameters. The database is a class,
`Records.Database`, with the users, the doctor-patient pairs, the doctor details,
the medical records and the messages as fields. The service operations that change
it are methods with `modifies db`. Each such method is proved against a function on
the old state (`UpdateRecord`, `RemoveRecord`, `MarkRead`, `Remove`,
`WithContact`, ...), and lemmas about those functions prove what the operation
promises.

## Model

| member | source | states |
|---|---|---|
| CbcAliases.NormalizedAliasesCorrect | app/ai/cbc/predict.py:27-46 | the normalised alias table used for matching is exactly `norm` applied to every spelling the alias table lists |
| CbcAliases.CanonicalNamesDistinct | app/ai/cbc/predict.py:27-40 | the twelve canonical names of the alias table are pairwise distinct |
| CbcAliases.AliasesDisjoint | app/ai/cbc/predict.py:27-46 | after `norm`, no spelling of one canonical name coincides with a spelling of another, so each input column can match at most one entry |
| CbcAliases.RenameMapProperties | app/ai/cbc/predict.py:49-60 | every key of the rename map is an input column whose normalised label is a spelling of its value; no two columns are renamed to the same canonical name |
| CbcAliases.RenameMapChoosesFirstMatch | app/ai/cbc/predict.py:49-60 | each canonical name goes to the first input column matching its earliest matching spelling, and to none when no spelling matches |
| CbcAliases.RenameKeepsCanonical | app/ai/cbc/predict.py:49-60 | a canonical name whose normalised form is one of its own spellings is renamed to itself when it is renamed at all |
| CbcAliases.BuildAliasRenameMap | app/ai/cbc/predict.py:49-60 | the nested loops over the alias table, its spellings and the columns compute the rename map, which is injective and whose keys are aliases |
| CbcNorm.Norm | app/ai/cbc/predict.py:45-46 | `norm` never lengthens its input |
| CbcNorm.NormChars | app/ai/cbc/predict.py:45-46 | the result of `norm` holds no space, dot, hyphen, underscore or upper-case letter |
| CbcNorm.NormOfOneSeparator | app/ai/cbc/predict.py:45-46 | two lower-case words joined by one deleted separator normalise to the words run together |
| CbcNorm.NormOfPaddedLabel | app/ai/cbc/predict.py:45-46 | a label padded with Unicode white space (U+3000, U+2003) normalises like the bare label, as str.strip() removes it |
| CbcNorm.NormOfTwoSeparators | app/ai/cbc/predict.py:45-46 | three lower-case words joined by two deleted separators normalise to the words run together |
| ColumnRename.FirstColumnFromCorrect | app/ai/cbc/predict.py:55-58 | the scan over the columns finds the earliest column whose normalised label equals the key, and finds none exactly when no column matches |
| ColumnRename.FirstMatchFromCorrect | app/ai/cbc/predict.py:53-59 | the variant loop stops at the earliest variant that matches some column and pairs it with its first matching column |
| ColumnRename.FindColumn | app/ai/cbc/predict.py:55-58 | the inner column loop returns the first column, in input order, whose normalised label is the key |
| ColumnRename.AssignCanonical | app/ai/cbc/predict.py:52-59 | one entry of the alias table maps the first column of its first matching variant to the canonical name, and changes nothing else |
| ColumnRename.BuildRenameMap | app/ai/cbc/predict.py:49-60 | the loop over the alias table builds the map the entries define, one entry after another |
| ColumnRename.RenameKeysAreAliases | app/ai/cbc/predict.py:49-60 | every key of the rename map is an input column whose normalised label is a spelling listed for its value |
| ColumnRename.RenameInjective | app/ai/cbc/predict.py:49-60 | no two input columns receive the same canonical name |
| ColumnRename.RenameChoosesFirstMatch | app/ai/cbc/predict.py:49-60 | the column a canonical name receives is the first column of its earliest matching variant; no column is renamed to it when nothing matches |
| CbcPrepare.RenameLabels | app/ai/cbc/predict.py:83 | renaming keeps the number of columns |
| CbcPrepare.NormalizeSex | app/ai/cbc/predict.py:63-76 | normalising the Sex column keeps its length |
| CbcPrepare.SexCodeCases | app/ai/cbc/predict.py:64-69 | a text cell becomes 0 exactly for F/FEMALE/0 and 1 exactly for M/MALE/1, after trimming and upper-casing, and missing otherwise |
| CbcPrepare.NormalizeSexBinary | app/ai/cbc/predict.py:63-76 | a text column and a numeric column coded {1, 2} come out holding only 0, 1 or missing |
| CbcPrepare.NormalizeSexKeepsBinary | app/ai/cbc/predict.py:72-73 | a numeric column coded exactly {0, 1} is returned unchanged |
| CbcPrepare.NormalizeSexIdempotent | app/ai/cbc/predict.py:63-76 | normalising an already normalised column changes nothing |
| CbcPrepare.ToNumericAllOrNothing | app/ai/cbc/predict.py:90-92 | `to_numeric(errors='ignore')` converts a column as a whole or leaves it as it was; numbers and missing cells keep their value |
| CbcPrepare.MissingFeaturesCorrect | app/ai/cbc/predict.py:95-97 | the missing-feature list holds exactly the used features absent from the columns |
| CbcPrepare.KeptRowsCorrect | app/ai/cbc/predict.py:100-102 | the kept rows are increasing and are exactly the rows with a value in every used feature |
| CbcPrepare.SelectRows | app/ai/cbc/predict.py:100-102 | selecting and renumbering rows keeps the labels and gives row k the cells of the k-th selected row |
| CbcPrepare.CheckAndDropCorrect | app/ai/cbc/predict.py:95-104 | the missing-column error comes first and is raised exactly when a used feature is absent; the no-valid-rows error is raised exactly when every feature is present and no row is complete; the check succeeds exactly when every feature is present and some row is complete, and then keeps exactly the complete rows, in order |
| CbcPrepare.PrepareForInference | app/ai/cbc/predict.py:79-104 | the preparation steps yield the ValueError or the prepared table the specification function defines |
| CbcPrepare.CoerceColumns | app/ai/cbc/predict.py:90-92 | the coercion loop over the columns yields ConvertColumns: to_numeric(errors='ignore') on every column except 'Diagnosis' |
| CbcAnnotate.LoadModelAndAssets | app/ai/cbc/predict.py:108-124 | loading succeeds iff the model, scaler and feature files all exist; otherwise FileNotFound names the first missing one, checked in the order model, scaler, features |
| CbcAnnotate.FeatureRow | app/ai/cbc/predict.py:252 | a row's feature vector holds the used features' values in order; a failure is the error of one of those cells |
| CbcAnnotate.FeatureMatrix | app/ai/cbc/predict.py:252-253 | the feature matrix holds every row's feature vector; a failure is the error of the first row that cannot be read, and it succeeds whenever every row can be read |
| CbcAnnotate.FeatureMatrixFirstError | app/ai/cbc/predict.py:252-253 | whenever some row cannot be read, the feature matrix fails with the error of the first such row |
| CbcAnnotate.PredictAndAnnotate | app/ai/cbc/predict.py:235-266 | the steps of predict_and_annotate_dataframe compute the annotation the specification function defines |
| CbcAnnotate.AnnotateCorrect | app/ai/cbc/predict.py:235-266 | annotation fails exactly as preparation does, or else with the ValueError of the first prepared row the scaler cannot read; it succeeds when preparation does and every prepared row can be read; on success, every prepared row gets the classifier's label on its scaled features, 'Anemia' exactly for label 1, and its class probabilities |
| CbcAnnotate.PreparedRowsComplete | app/ai/cbc/predict.py:100-104 | every row of a prepared table has a value in every used feature |
| CbcAnnotate.PrepareErrorIsValueError | app/ai/cbc/predict.py:95-104 | preparation only ever fails with a ValueError |
| CbcReport.Val | app/ai/cbc/predict.py:128-132 | an absent column and a missing cell read as NaN; a numeric cell reads as its value |
| CbcReport.Classify | app/ai/cbc/predict.py:142-148 | MCV below 80 is microcytic, above 100 macrocytic, 80 to 100 normocytic, and undetermined when MCV is NaN |
| CbcReport.Hints | app/ai/cbc/predict.py:150-153 | hypochromia is noted exactly when MCHC is below 32 and elevated RDW exactly when RDW is above 14.5, in that order |
| CbcReport.ExtraTests | app/ai/cbc/predict.py:180-196 | two extra tests for microcytic, three for macrocytic, two for normocytic, none when MCV is NaN |
| CbcReport.BuildReport | app/ai/cbc/predict.py:157-231 | the steps of build_report, each a loop appending lines, produce the report the specification function defines |
| CbcReport.ReportNotAnemicIff | app/ai/cbc/predict.py:158-162 | the fixed not-anemic text is returned exactly when the predicted label is 0 |
| CbcReport.PlanShape | app/ai/cbc/predict.py:204-231 | an anemic report starts with the headline, ends with the notice, and has 15 lines plus one per measured value, one for the observations and one per band-specific test |
| CbcReport.PlanValues | app/ai/cbc/predict.py:206-209 | an anemic report shows Hb and MCV exactly when each is measured |
| CbcReport.PlanSummary | app/ai/cbc/predict.py:210-212 | an anemic report shows the MCV classification, and a line of observations exactly when there are hints |
| CbcReport.PlanBullets | app/ai/cbc/predict.py:168-224 | an anemic report bullets exactly the base tests, the extra tests of the MCV band, the lifestyle tips and the red flags |
| Ingest.ReadFileByExtension | app/services/ai_service.py:160-185 | .csv goes to the CSV reader, .xlsx and .xls to the Excel reader, .pdf to the PDF reader, case-insensitively; any other extension fails with a ValueError naming it |
| Ingest.DetectAndTransform | app/services/ai_service.py:43-70 | a table with Parameter and Value columns becomes one row whose k-th column is labelled by the k-th parameter and holds the k-th value; any other table is returned unchanged |
| Ingest.TransformedLookup | app/services/ai_service.py:58-66 | in the transformed row, looking up a parameter's label gives the value listed beside its first occurrence |
| PredictionService.FloatOf | app/services/ai_service.py:273-282 | an absent column gives 0; a failure is always a ValueError |
| PredictionService.FloatOfAgreesWithReport | app/services/ai_service.py:273-282 | for a column that is present, the value echoed back is the one the report reads |
| PredictionService.ValuesOf | app/services/ai_service.py:273-282 | the echoed values are the eight CBC values in order; a refusal is a ValueError |
| PredictionService.BatchCorrect | app/services/ai_service.py:242-293 | a batch has one result per prepared row, at least one, in order: the row index, the classifier's label, 'Anemia' exactly for label 1, both probabilities, "High" confidence exactly when one exceeds 0.8, a report exactly when asked, and the not-anemic text exactly for label 0 |
| PredictionService.BatchRowFacts | app/services/ai_service.py:258-293 | one batch result carries its row's index, label and probabilities, and its confidence and report as above |
| PredictionService.CollectBatchRows | app/services/ai_service.py:258-293 | the loop over prepared rows yields all their results, or the first failure |
| PredictionService.CollectUploadRows | app/services/ai_service.py:379-401 | the loop over annotated rows yields all their results, or the first failure |
| PredictionService.ReadUploadedFile | app/services/ai_service.py:318-358 | the pre-model checks of the upload compute ReadUpload, whose refusals ReadUploadRefusals states; a success is a well-formed table with an accepted extension |
| PredictionService.ReadUploadRefusals | app/services/ai_service.py:318-358 | the refusals in order of precedence, each with its message: no file or no file name (and only then the no-file message), then an extension outside .csv/.xlsx/.xls/.pdf, then empty content, then "Error reading file: " with the reader's message, then a table without rows; an upload passing them all yields its extension and the Parameter/Value-transformed table |
| PredictionService.ValidExtensionsRead | app/services/ai_service.py:325-343 | every extension the upload accepts is dispatched to a reader, never to the unsupported-format error |
| PredictionService.CsvUploadOutcome | app/services/ai_service.py:295-491 | an upload succeeds exactly when the file is read, the model classifies every row, and a session and the model record are present; a read refusal is returned with its own message; an analysis failure is reported as "File validation error: " for a ValueError and "Error processing file: " otherwise, followed by its message; then the missing session and the missing model record each give their message; a failure has no results; a success has at least one result and names their count and the extension |
| PredictionService.AnalysisResults | app/services/ai_service.py:361-401 | each upload result describes its prepared row: its index, the classifier's label, 'Anemia' or 'Normal' from it, the anemia probability, and the not-anemic report exactly for label 0 |
| PredictionService.ManualInputOutcome | app/services/ai_service.py:493-642 | manual input succeeds exactly when the values are classified and a session and the model record are present, with exactly one result, for row 0; an analysis failure is reported as "Validation error: " for a ValueError and "Error during CBC analysis: " otherwise, followed by its message; then the missing session and the missing model record each give their message |
| PredictionService.ManualInputRefusals | app/services/ai_service.py:493-642 | with the model loaded, manual input is refused with "Validation error: " and the missing-column message naming the absent features when a used feature is not one of the eight form fields, and with the no-valid-rows message when every used feature is a form field and one of them was entered as NaN |
| PredictionService.ManualInputAccepted | app/services/ai_service.py:493-642 | with the model loaded, manual input whose used features are all form fields, each entered as a number, is classified, and then succeeds exactly when a session and the model record are present |
| PredictionService.ManualCell | app/services/ai_service.py:510-519 | a form value is a number cell, and a NaN value is a missing cell |
| PredictionService.ManualTableNormalized | app/ai/cbc/predict.py:79-92 | renaming, Sex normalisation and numeric coercion leave the one-row table of form values unchanged: its eight labels are canonical names |
| PredictionService.CbcPredictionService.IsAvailable | app/services/ai_service.py:200-202 | the service is available iff the prediction modules could be imported |
| PredictionService.CbcPredictionService.AfterLoad | app/services/ai_service.py:204-212 | load_model gives a RuntimeError when unavailable, keeps the loaded assets, and otherwise loads them from the store |
| PredictionService.CbcPredictionService.LoadModel | app/services/ai_service.py:204-212 | on failure nothing changes; on success the assets are loaded; once loaded, later calls change nothing |
| PredictionService.CbcPredictionService.PredictBatch | app/services/ai_service.py:242-293 | a load failure is returned unchanged; otherwise the assets stay loaded and the result is the batch over the table |
| PredictionService.CbcPredictionService.ProcessCsvUpload | app/services/ai_service.py:295-491 | the response is the upload outcome for what loading yields; the model is not loaded when the file is refused |
| PredictionService.CbcPredictionService.ProcessManualInput | app/services/ai_service.py:493-642 | the response is the manual-input outcome for the eight values in table order, a NaN argument standing as a missing cell |
| Policy.RequireActiveAccount | app/services/policy_service.py:38-51 | raises exactly for an inactive account, carrying the user's role |
| Policy.CheckPatientAccess | app/services/policy_service.py:54-93 | access is granted, with an empty reason, iff both accounts are active and the user is an admin, the patient themself, or a doctor linked to the patient |
| Policy.CheckPatientAccessReasons | app/services/policy_service.py:54-93 | the reasons deactivated_user, deactivated_patient, not_linked and unauthorized are each given exactly in their case, in that order of precedence |
| Policy.CanUploadTest | app/services/policy_service.py:138-156 | an active doctor, patient or admin may upload; an inactive account is refused as deactivated |
| Policy.CanViewPatientData | app/services/policy_service.py:159-190 | an active admin, the patient themself or a linked doctor may view; the patient's own status is not consulted |
| Policy.CanAddDiagnosis | app/services/policy_service.py:193-231 | granted iff an active doctor or admin, the patient exists and is active, and an acting doctor is linked to the patient |
| Policy.CanAddDiagnosisReasons | app/services/policy_service.py:193-231 | each refusal reason is given exactly in its case, in the source's order of checks |
| Policy.CanModifyDiagnosis | app/services/policy_service.py:234-270 | granted iff an active doctor or admin, the record exists, and an acting doctor wrote it |
| Policy.CanModifyDiagnosisReasons | app/services/policy_service.py:234-270 | each refusal reason is given exactly in its case, in the source's order of checks |
| Policy.CanManageUsers | app/services/policy_service.py:310-319 | only an active admin may manage users |
| Policy.CheckRolePermission | app/services/policy_service.py:378-385 | granted iff active and the role is allowed; an inactive account is deactivated before any role check |
| Policy.GetDeactivationMessage | app/services/policy_service.py:322-345 | every message carries the "Account Deactivated" title |
| Policy.DeactivationMessageDefault | app/services/policy_service.py:322-345 | the default message is given exactly for roles other than doctor, patient and admin |
| MedicalHistory.CreateDiagnosis | app/services/medical_history_service.py:7-64 | an unknown doctor and each policy refusal leave the records unchanged with their message; otherwise exactly one record with a fresh id is appended, holding the given fields |
| MedicalHistory.PatientRecordsNewestFirstCorrect | app/services/medical_history_service.py:80-82 | the history lists every record of the patient and no other, newest first, as a permutation of its records |
| MedicalHistory.DoctorName | app/services/medical_history_service.py:87-94 | "Unknown" exactly when the record has no doctor or the doctor is not a user |
| MedicalHistory.GetPatientMedicalHistory | app/services/medical_history_service.py:67-98 | one entry per record of the patient, newest first, each with its fields and doctor name |
| MedicalHistory.ApplyUpdate | app/services/medical_history_service.py:146-151 | each of condition, treatment and notes is overwritten only by a non-empty value; id, patient, doctor and date are kept |
| MedicalHistory.ApplyUpdateIdempotent | app/services/medical_history_service.py:146-151 | the same update applied twice is applied once; an update with no values changes nothing |
| MedicalHistory.UpdateRecordCorrect | app/services/medical_history_service.py:101-155 | updating changes only the record with that id and keeps ids unique |
| MedicalHistory.UpdateDiagnosis | app/services/medical_history_service.py:101-155 | the records change, as UpdateRecord says, exactly when the doctor exists and may modify the record; otherwise nothing changes and the message names the refusal |
| MedicalHistory.RemoveRecordCorrect | app/services/medical_history_service.py:158-199 | deleting keeps every other record, drops the one with that id, and keeps ids unique |
| MedicalHistory.DeleteDiagnosis | app/services/medical_history_service.py:158-199 | exactly one record is removed when the doctor exists and may modify it; otherwise nothing changes |
| Patients.ChooseUsername | app/services/patient_service.py:40-45 | the username is the first of base, base1, base2, ... not already taken |
| Patients.CandidatesDistinct | app/services/patient_service.py:40-45 | the candidate usernames are pairwise distinct, so the loop ends |
| Patients.TempPassword | app/services/patient_service.py:48 | the temporary password has 12 characters, each an ASCII letter or digit |
| Patients.NewPatient | app/services/patient_service.py:51-63 | the new user has role patient, is active, and has no blood type when the given one is empty |
| Patients.CreatePatient | app/services/patient_service.py:19-91 | a taken email changes nothing; otherwise one patient with a fresh id and the first free username is added, and linked to the doctor when one is given |
| Patients.GetPatientDoctors | app/services/patient_service.py:96-126 | the loop over users lists, by increasing id, a card for each linked doctor, with "General" and "N/A" when doctor details are missing |
| Patients.PatientDoctorsComplete | app/services/patient_service.py:96-126 | the listing holds exactly the doctors linked to the patient, in increasing id order |
| Patients.GetDoctorPatients | app/services/patient_service.py:129-134 | a patient is listed exactly when linked to the doctor |
| Patients.LinkPatientToDoctor | app/services/patient_service.py:137-161 | returns false and changes nothing when the pair exists; otherwise adds the pair and returns true; afterwards the patient is linked |
| Patients.UnlinkPatientFromDoctor | app/services/patient_service.py:164-176 | removes only that pair, returns true iff it was there, and afterwards the patient is not linked |
| Patients.LinkThenUnlink | app/services/patient_service.py:137-176 | linking an absent pair and unlinking it restores the relation |
| Messages.UnreadMembers | app/services/message_service.py:24-25 | the unread filter keeps exactly the messages with is_read 0 |
| Messages.GetAllMessagesCorrect | app/services/message_service.py:21-26 | the listing is newest first, holds exactly the stored (or stored unread) messages, and all of them as a permutation when unfiltered |
| Messages.GetMessageById | app/services/message_service.py:29-31 | finds a stored message with that id, and none exactly when no message has it |
| Messages.GetUnreadCount | app/services/message_service.py:44-46 | the unread count is the length of the unread listing |
| Messages.CreateMessage | app/services/message_service.py:6-18 | appends one unread message with a fresh id and returns it; nothing else changes |
| Messages.MarkReadCorrect | app/services/message_service.py:34-41 | marking sets is_read of the one message with that id, touches no other, and is idempotent |
| Messages.MarkMessageAsRead | app/services/message_service.py:34-41 | an unknown id returns None and changes nothing; otherwise the message is returned read |
| Messages.RemoveCorrect | app/services/message_service.py:49-56 | deleting keeps every other message and drops the one with that id |
| Messages.DeleteMessage | app/services/message_service.py:49-56 | true iff a message with that id was stored; the store loses exactly that message |
| Profiles.ContactUpdateKeepsEmailsUnique | app/services/profile_service.py:40-58 | a contact update that passes the email check keeps emails unique among users |
| Profiles.UpdateUserProfile | app/services/profile_service.py:13-58 | succeeds iff no other user has the email; then only that user's contact fields change, otherwise nothing does |
| Profiles.WithSpecialization | app/services/profile_service.py:106-117 | the doctor's specialization is set, keeping an existing license or creating "TEMP-<id>"; other doctors' details are kept |
| Profiles.UpdateDoctorProfile | app/services/profile_service.py:61-122 | the contact update as above, and the specialization when it is non-empty |
| Profiles.ChangeUserPassword | app/services/profile_service.py:125-161 | refuses, in this order, a current password that does not match the stored hash, a new password that differs from its confirmation, and a new password shorter than 8 characters, each with its message; succeeds iff none applies, and then only the password changes, to the hash of the new one |
| Profiles.ImageExtension | app/services/profile_service.py:181-182 | the judged extension is empty or starts with a dot |
| Profiles.UploadUserProfileImage | app/services/profile_service.py:164-210 | accepted iff the lower-cased extension is an allowed image type; then only the profile image changes |
| Sorting.SortDescCorrect | app/services/message_service.py:26 | newest-first ordering is sorted by descending creation time and is a permutation of its input |

## Left out

- Duplicate column labels: after renaming, the model reads the first column of a label. pandas would return a frame or raise.
- Text parsing: numbers in text cells follow a plain decimal grammar (sign, digits, optional fraction). Case mapping is ASCII only.
- CbcPrepare.ParseCell: a text cell is parsed as it stands, without stripping the white space around it. pd.to_numeric accepts such padding, so a column holding " 12.5" stays text in the model but becomes numeric in pandas.
- Text.PyStrList, CbcAnnotate.FeatureValue, PredictionService.FloatOf: a name or cell text is quoted as '…' as it stands. Python's repr would escape a quote or backslash inside it, and would switch to double quotes for a text holding a single quote.
- PredictionService.ManualInput: a form value is a real number or NaN (None). An infinite value (float('inf')) is not modelled.
- A numeric cell inside a text Sex column is treated as missing. pandas renders such a cell with str(), so an integer 0 or 1 there would be recognised.
- Ingest.DetectAndTransform, CbcPrepare.NormalizeSex: a column is text (pandas' object dtype) exactly when it holds a Text cell. After the Parameter/Value pivot, pandas makes every column object-typed when the Value column mixes text and numbers. normalize_sex_column then takes its text branch for a numeric Sex value: Sex=2 becomes missing and the row is dropped. The model takes the numeric branch for that column and keeps the row.
- The file readers for CSV, Excel and PDF are parameters. Their parsing is not modelled.
- The classifier and the scaler are parameters: a per-row label and a pair of class probabilities.
- Number formatting is a parameter: `.1f` in the report, `.2f` in the probability strings, and the printing of numeric labels. Percentage and probability strings are not part of the results.
- predict_single is not modelled. No core caller reaches it.
- The NaN check inside the numeric conversion is not modelled. Its message cannot be reached, because preparation has already dropped every incomplete row.
- The "No valid data rows" branch of process_csv_upload and the "Invalid CBC values" branch of process_manual_input cannot be reached after preparation succeeds. They are not modelled. The same holds for the 0.5 probability fallback.
- PredictionService.CbcPredictionService.PredictBatch takes a Table instead of a list of dictionaries.
- PredictionService.CsvUploadOutcome: the database writes, the test id, the echo of notes, patient and uploader, and the "Error saving test to database" path are not modelled. Only the session and model-record checks are.
- Password hashing, the random draws for temporary passwords, and the unique file name of a profile image are parameters.
- Patients.GetDoctorPatients returns the set of linked patient ids. The source returns the same ids as a list, in the order the database gives them.
- Patients.GetPatientDoctors lists doctors by increasing id. The source's query has no ORDER BY, so its order is whatever the database returns.
- Patients.CreatePatient does not store the date of birth; the source does not either. The exception paths of create, link and unlink are not modelled.
- Profiles.UploadUserProfileImage does not model writing the file.
- The report is a sequence of line values joined by newlines. The emoji headers are kept as fixed constants.
- A manual-input success returns the one result as a one-element list.
- Logging and print statements are not modelled.
- The routers, the application entry point, the request schemas, the UI helpers and the authentication service are not part of this model.

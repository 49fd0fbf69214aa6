# HomeboxAPI client, modelled in Dafny

This project models `HomeboxAPI`, the Python client of the Homebox inventory
server (`includes/homebox_api.py`), and proves properties of the model.

- **Token cache and request pipeline.**
  - `login` posts the stored credentials, cleans the token it gets back and caches it in the class field `_TOKEN`.
  - `get_headers` logs in when no token is cached and builds the `Authorization: Bearer …` header.
  - `request` resolves the HTTP method case-insensitively and classifies the answer. 200/201 give the decoded body, 204 gives `True`, everything else gives `None`.
  - After a 401, `request` drops the token, logs in again and re-sends exactly once.
- **Accessors.** `get_all_labels`, `get_item`, `get_all_items`, `get_archived_items`, `get_attachments`, `delete_label`, `delete_attachment`, `update_attachment`, `get_empty_labels` and `find_and_delete_empty_labels`. Each goes through `request` and reshapes the decoded JSON.
- **String handling.** `sanitize_filename`, POSIX `os.path.splitext`, the file name `download_attachment_by_id` derives for an attachment, and the endpoint `download_raw` assembles.

The model is built in three layers.

1. **Values and text.** `PyValues` holds the decoded JSON values, Python truthiness, `dict.get`, iteration, set keys (where `True == 1`) and the exceptions the client raises. `PyText` holds `strip`, `replace` and `upper`, written character by character.
2. **Specification functions over a state value** (`Dispatch`, `Accessors`, `Payloads`, `Filenames`).
   - The state holds:
     - the base URL;
     - what the credential store yields;
     - the cached token;
     - the server's scripted answers;
     - the log of messages sent;
     - the number of logins that went past the cache check.
   - Each message takes the next scripted answer: `Status(code, body)` or `TransportError`. The properties of `login`, `request` and the accessors are proved about these functions.
3. **Imperative code** (`Client`, plus the two loop methods of `Payloads`).
   - The class `HomeboxApi` holds the token and the transport as fields that its methods overwrite.
   - Each method is proved to return, and to leave behind, exactly what its specification function describes.
   - `update_attachment` fills its payload field by field.
   - `get_empty_labels` grows its set of used label ids in two nested loops.
   - `find_and_delete_empty_labels` deletes label after label.
   - Each of these loops is a method proved equal to its specification function.

Where the code behaves differently from the client's written description, the model follows the code:
- `request` builds its headers before it looks up the method, so an unsupported method can still cause a login POST. No API message is sent in that case (`Dispatch.UnsupportedMethodAfterLogin`).
- Token cleaning removes every occurrence of `"Bearer "`, not only a prefix, in a single pass, and then strips surrounding whitespace. So a cleaned token can still contain `Bearer ` (`Dispatch.CleaningCanLeaveScheme`).
- A login failure during the retry after a 401 is raised to the caller instead of becoming `None` (`Dispatch.RefreshLoginFailurePropagates`).
- A login answered with 4xx/5xx raises ConnectionError, because `raise_for_status` raises an HTTPError, which is a RequestException.
- A login answered with a 2xx/3xx status other than 200 returns `None` and caches nothing, so the next header reads `Bearer None` (`Dispatch.OtherSuccessGivesBearerNone`).
- A 2xx/3xx answer other than 200, 201 or 204 gives `None`.
- `get_empty_labels` returns `None`, not every label, when the item list is empty.
- `get_empty_labels` prints `label['name']`, so unused labels without a `name` raise KeyError (`Payloads.NamelessLabelExample`).
- `find_and_delete_empty_labels` goes on with an empty item list and then deletes every label (`Payloads.EmptyItemListMarksEveryLabel`). It does not skip malformed items.
- `update_attachment` returns `None` when the response dict has an `error` key.
- `sanitize_filename` cuts to 250 characters after trimming, so the result can end in a space (`Filenames.SanitizeCutCanEndInSpace`).

## Model

| member | source | states |
|---|---|---|
| PyValues.Or | includes/homebox_api.py:245 | `v or d` is `v` when `v` is truthy and `d` otherwise; it is truthy exactly when one of them is |
| PyValues.Key | includes/homebox_api.py:575 | the identity a Python set gives a scalar: True and False become 1 and 0, every other value is itself, and a hashable value stays hashable |
| PyValues.Elements | includes/homebox_api.py:570 | `for x in v` iterates a list's elements, a string's characters and a dict's keys, and raises TypeError on any other value; the iteration is empty exactly when `v` is falsy |
| PyText.RStripSpace | includes/homebox_api.py:321 | `rstrip()` keeps a prefix that does not end in whitespace, and everything it drops is whitespace |
| PyText.LStripSpace | includes/homebox_api.py:321 | `lstrip()` keeps a suffix that does not start with whitespace, and everything it drops is whitespace |
| PyText.Strip | includes/homebox_api.py:149 | `strip()` returns a contiguous slice of its input with no whitespace at either end |
| PyText.StripDropsOnlySpace | includes/homebox_api.py:149 | everything `strip()` drops, in front of and behind the slice it keeps, is whitespace |
| PyText.StripPadded | includes/homebox_api.py:149 | `strip()` of a string without surrounding whitespace, padded with whitespace on both sides, gives back that string |
| PyText.StripUnpadded | includes/homebox_api.py:149 | `strip()` leaves a string without surrounding whitespace unchanged |
| PyText.RemoveAll | includes/homebox_api.py:149 | `replace(pat, "")` never lengthens the string |
| PyText.RemoveAllAbsent | includes/homebox_api.py:149 | removing a pattern that does not occur changes nothing |
| PyText.RemoveAllPrefix | includes/homebox_api.py:149 | a leading occurrence of the pattern is removed and the scan resumes right after it |
| PyText.RemoveAllShort | includes/homebox_api.py:149 | a string shorter than the pattern is left unchanged |
| PyText.RemoveAllSkip | includes/homebox_api.py:149 | where no occurrence starts, the head character is kept and the scan moves on by one; with `RemoveAllPrefix` and `RemoveAllShort` this covers every case of the scan |
| PyText.RemoveAllKeepsHead | includes/homebox_api.py:149 | a run of characters none of which starts the pattern is kept as it is, in front of the rest's result |
| PyText.RemoveAllOnce | includes/homebox_api.py:149 | one occurrence after such a run is removed, and nothing else when the rest holds no occurrence |
| PyText.Upper | includes/homebox_api.py:191 | `upper()` keeps the length, maps each ASCII lower-case letter to upper case and leaves every other character alone |
| Filenames.RStripDotsSpaces | includes/homebox_api.py:321 | `rstrip('. ')` keeps a prefix not ending in a dot or space, and drops only dots and spaces |
| Filenames.ReplaceReserved | includes/homebox_api.py:319 | the substitution keeps the length, turns each of `<>:"/\|?*` and U+0000..U+001F into `_` and keeps every other character |
| Filenames.StripKeepsUnreserved | includes/homebox_api.py:319-321 | stripping a string free of reserved characters keeps it free of them |
| Filenames.Stripped | includes/homebox_api.py:319-321 | after the substitution and `strip()`, no reserved character is left and no whitespace leads |
| Filenames.Trimmed | includes/homebox_api.py:319-321 | after `rstrip('. ')` as well, the name neither starts with whitespace nor ends in a dot or space |
| Filenames.SanitizeFilename | includes/homebox_api.py:316-323 | the result has no reserved character, is at most 250 long, is a prefix of the trimmed name and equals it unless cut, has no trailing dot or space when the trimmed name fits, and has no leading whitespace |
| Filenames.CleanNameKept | includes/homebox_api.py:316-323 | a name without reserved characters, surrounding whitespace or a trailing dot or space passes the substitution and trimming unchanged |
| Filenames.SanitizeReplacesReserved | includes/homebox_api.py:319 | `a/b:c*d` sanitises to `a_b_c_d` |
| Filenames.SanitizeCutCanEndInSpace | includes/homebox_api.py:321-323 | 249 letters, a space and a letter sanitise to 250 characters ending in a space: the cut comes after the trimming |
| Filenames.SplitExt | includes/homebox_api.py:352 | `splitext(p)` splits `p` into stem and extension; the extension is empty or a dot followed by no dot or slash; a non-empty extension follows a stem that has a non-dot character in its last path component; with no extension, every dot in the last component follows only dots |
| Filenames.SplitExtJoin | includes/homebox_api.py:352 | a slash-free stem that is not all dots, joined to an extension, splits back into the two |
| Filenames.FindAttachment | includes/homebox_api.py:342-345 | `next(...)` returns the first attachment whose `id` matches, with all before it non-matching dicts; None exactly when every attachment is a non-matching dict; AttributeError exactly when a non-dict comes before any match |
| Filenames.TitleStem | includes/homebox_api.py:351-352 | the stem is defined exactly when the document is a dict and its title (the attachment id when missing) a string, and is then the sanitised `splitext` stem of that title, free of reserved characters; otherwise AttributeError for a non-dict document and TypeError for a non-string title |
| Filenames.SavedExtension | includes/homebox_api.py:354-357 | photos and attachments keep the extension of `document.path` (`.png` when there is no path); every other type gets `.pdf`; a non-string path raises |
| Filenames.DownloadFileName | includes/homebox_api.py:347-359 | a name is produced exactly when both the title stem and the saved extension are, read from the attachment's `type` (default `unknown`) and `document` (default `{}`), and is the stem followed by the extension; otherwise the stem's error, or else the extension's, is raised |
| Filenames.DownloadFileNameSplitsBack | includes/homebox_api.py:351-359 | a file name whose stem is not empty or all dots, and whose extension is not empty, splits back into that stem and extension |
| Filenames.Segment | includes/homebox_api.py:417-420 | an id adds `/id` exactly when it is truthy |
| Filenames.DownloadRawEndpoint | includes/homebox_api.py:416-420 | the endpoint is the resource path followed by one `/id` segment for each truthy id, in order, and is the bare path when neither id is truthy |
| Payloads.ItemsFrom | includes/homebox_api.py:264-272 | the `items` value of a dict that has one, a bare list unchanged, `[]` for anything else |
| Payloads.ItemsFromExamples | includes/homebox_api.py:266-272 | the envelope `{"items": [a, b]}` gives `[a, b]`, a bare list is kept, `{"unexpected": true}` gives `[]` |
| Payloads.Filter | includes/homebox_api.py:289 | a comprehension with a condition keeps, in order, exactly the elements that satisfy it, each as often as it occurs |
| Payloads.ArchivedItems | includes/homebox_api.py:285-292 | `[]` for a falsy value; for a list, its archived dicts in order; TypeError for a truthy value that cannot be iterated; every result element is an archived dict |
| Payloads.ArchivedExample | includes/homebox_api.py:289 | of `[{"archived": true}, {"archived": false}, {}]` only the first is archived |
| Payloads.AttachmentsOf | includes/homebox_api.py:330-334 | the `attachments` list of a dict item, `[]` when there is no such list |
| Payloads.UpdatePayload | includes/homebox_api.py:508-530 | nothing is sent exactly when a truthy type is not one of the five attachment types or nothing is to change; otherwise `type` is present iff the type is truthy, `name` and `title` iff the name is truthy, `primary` iff it is not None, each with the given value and no other key |
| Payloads.UpdateOutcome | includes/homebox_api.py:539-550 | the response is returned exactly when it is a non-empty dict without an `error` key, and None otherwise |
| Payloads.LabelsOf | includes/homebox_api.py:571-573 | an item's labels are its `labels` list when the item is a dict holding one, and none otherwise |
| Payloads.LabelIds | includes/homebox_api.py:574-578 | the inner loop collects exactly the keys of the ids of the dict labels with an `id`, and raises TypeError exactly when one of those ids cannot be hashed |
| Payloads.UsedLabelIds | includes/homebox_api.py:569-583 | the nested loops collect exactly the ids attached to well-formed labels of well-formed items, and raise TypeError exactly when one of those ids cannot be hashed |
| Payloads.CollectUsedLabelIds | includes/homebox_api.py:569-583 | the outer loop, run item by item, ends with exactly the ids (or the error) `UsedLabelIds` describes |
| Payloads.AddLabelIds | includes/homebox_api.py:574-578 | the inner loop adds exactly the label ids `LabelIds` describes to the set, or raises TypeError when `LabelIds` does |
| Payloads.UnusedLabels | includes/homebox_api.py:586 | the comprehension succeeds exactly when every label is a dict with a hashable id, and then keeps, in order, the labels whose id is not used; otherwise it raises what the first malformed label raises |
| Payloads.UnusedLabelsAreUnused | includes/homebox_api.py:586 | every label the comprehension keeps is a well-formed label whose id is not used |
| Payloads.EmptyLabels | includes/homebox_api.py:562-598 | None when either list is falsy; otherwise None or a non-empty list of labels, each with a `name` |
| Payloads.UnusedReport | includes/homebox_api.py:586-598 | the listing of unused labels is None or a non-empty list whose labels all have a `name` |
| Payloads.EmptyLabelsAreUnattached | includes/homebox_api.py:569-598 | whenever a report comes back, the labels form a list of well-formed labels; None means every label is attached to some item; a list holds exactly the labels no item refers to, in order and with their multiplicity |
| Payloads.ExampleUsed | includes/homebox_api.py:569-583 | the item `{"labels": [{"id": "L1"}]}` uses exactly the id L1 |
| Payloads.ExampleUnused | includes/homebox_api.py:586 | of labels with ids L1 and L2, only the L2 label is unused when L1 is used |
| Payloads.NamedReport | includes/homebox_api.py:592-598 | unused labels that all have a `name` are returned as the list |
| Payloads.NamelessReport | includes/homebox_api.py:595-596 | an unused label without a `name` makes the listing raise KeyError |
| Payloads.UnusedLabelExample | includes/homebox_api.py:556-598 | labels L1 and L2 and an item carrying L1: the report is `[L2]` when L2 has a name |
| Payloads.NamelessLabelExample | includes/homebox_api.py:595-596 | the same labels without names: the report raises KeyError |
| Payloads.StrictLabelIds | includes/homebox_api.py:614 | the set comprehension over one item's labels succeeds exactly when every label is a dict with a hashable id, and then holds exactly their ids; otherwise it raises what the first malformed label raises |
| Payloads.StrictUsedLabelIds | includes/homebox_api.py:614 | the set comprehension over all items succeeds exactly when every item is a dict whose `labels` iterate as its label list of well-formed labels, and the set then holds exactly the attached ids; a non-dict first item raises AttributeError |
| Payloads.LabelsToDelete | includes/homebox_api.py:614-617 | the labels marked for deletion exist exactly when both fetched values can be iterated, every item is read by the strict collection and every label is a dict with a hashable id |
| Payloads.CleanupExample | includes/homebox_api.py:614-617 | labels L1 and L2 and an item carrying L1: the cleanup marks exactly the L2 label |
| Payloads.LabelsToDeleteAreUnattached | includes/homebox_api.py:614-617 | the labels marked for deletion are exactly the labels no item refers to, in order and with their multiplicity |
| Payloads.LabelsToDeleteAreIdLabels | includes/homebox_api.py:617 | every label marked for deletion is a dict with a hashable id |
| Payloads.StrictAgreesWithLenient | includes/homebox_api.py:614 | on items the strict collection accepts, the strict and the lenient collections find the same ids |
| Payloads.NothingUsedKeepsAll | includes/homebox_api.py:617 | with no id in use, every well-formed label is unused |
| Payloads.EmptyItemListMarksEveryLabel | includes/homebox_api.py:608-617 | with an empty item list the cleanup marks every well-formed label for deletion, while the report is None |
| Payloads.CleanupDeletesReportedLabels | includes/homebox_api.py:614-617 | when both fetched values are truthy and the labels to delete all have a `name`, the cleanup deletes exactly the labels `get_empty_labels` reports: none when it reports None |
| Dispatch.Exchange | includes/homebox_api.py:197 | sending a message takes the next scripted answer (a transport failure when none is left) and logs the message |
| Dispatch.ClassifyIsNoneOnFailure | includes/homebox_api.py:196-239 | transport failures and 4xx/5xx give None, 200/201 the body, 204 True, any other status None |
| Dispatch.CleanToken | includes/homebox_api.py:149 | the cleaned token has no whitespace at either end |
| Dispatch.CleanTokenOfPaddedScheme | includes/homebox_api.py:149 | `Bearer <t>` padded with whitespace cleans to `<t>` for every token without surrounding whitespace, when the scheme does not occur again in what follows it |
| Dispatch.ReplaceCanLeaveScheme | includes/homebox_api.py:149 | the single `replace` pass turns `BeBearer arer x` into `Bearer x` |
| Dispatch.CleaningCanLeaveScheme | includes/homebox_api.py:149 | cleaning `BeBearer arer x` gives `Bearer x`, and cleaning that again gives `x`: cleaning is not idempotent |
| Dispatch.CleanTokenStripsScheme | includes/homebox_api.py:149 | cleaning turns `Bearer <t>` into `<t>` and leaves a clean token unchanged |
| Dispatch.LoginSpec | includes/homebox_api.py:129-163 | a cached token is returned with nothing sent; otherwise one credential lookup, and one login POST when the credentials are usable; an error leaves the token alone and is a login error; success caches what it returns, unless it returns None |
| Dispatch.LoginOutcomes | includes/homebox_api.py:134-163 | each login result, with its exact condition: missing credentials, a transport failure or 4xx/5xx, a non-200 success, a 200 without a token, any other failure; a returned token is the cleaned token of the answer |
| Dispatch.LoginCachesCleanToken | includes/homebox_api.py:146-150 | a 200 answer with a token caches the cleaned token and returns it, after exactly one POST |
| Dispatch.OtherSuccessGivesBearerNone | includes/homebox_api.py:146-175 | a login answered with a non-200 success leaves no token, and the header reads `Bearer None` |
| Dispatch.GetHeadersSpec | includes/homebox_api.py:166-176 | a cached token is used without sending anything; otherwise `login` runs once; the header always carries `Bearer` and the token now cached; only login messages are sent |
| Dispatch.HeadersAfterLogin | includes/homebox_api.py:168-175 | after a successful login the header carries the new cleaned token |
| Dispatch.ParseVerb | includes/homebox_api.py:185-191 | a method name is found only as the name of one of the five verbs |
| Dispatch.ParseVerbName | includes/homebox_api.py:185-191 | each of GET, POST, PUT, PATCH and DELETE is found, whatever case it is written in |
| Dispatch.LowerCaseVerbsAccepted | includes/homebox_api.py:191-194 | `delete` and `Put` are accepted, `trace` is not |
| Dispatch.RetrySpec | includes/homebox_api.py:209-228 | the retry logs in exactly once and, when that succeeds, sends the message once more with the new header; the answer, a second 401 included, is classified without a further retry; a login failure is raised |
| Dispatch.AttemptSpec | includes/homebox_api.py:196-239 | an attempt sends at most three messages, two of them API messages; it logs in at most once and raises only login errors |
| Dispatch.RequestSpec | includes/homebox_api.py:180-239 | a request sends at most two API messages and logs in at most twice; it raises only login errors and UnsupportedMethod; an unsupported method raises and sends no API message |
| Dispatch.RequestAttempts | includes/homebox_api.py:182-197 | once the headers are in hand and the method is known, the request is one attempt at `base_url/endpoint` |
| Dispatch.CachedRequest | includes/homebox_api.py:168-197 | with a cached token the attempt carries that token and nothing is sent before it |
| Dispatch.RequestAfterLogin | includes/homebox_api.py:168-197 | without a token, a successful login comes first and the attempt carries the new token |
| Dispatch.AttemptAnswered | includes/homebox_api.py:196-207 | an answer other than 401 is classified after exactly one message |
| Dispatch.AttemptUnauthorized | includes/homebox_api.py:209-213 | a 401 forgets the token and hands over to the retry |
| Dispatch.RetrySends | includes/homebox_api.py:214-228 | with fresh headers the retry sends once and classifies the answer, whatever it is |
| Dispatch.RequestWithCachedToken | includes/homebox_api.py:180-207 | with a cached token an unsupported method changes nothing, and an answer other than 401 is classified after one message carrying the cached token |
| Dispatch.UnsupportedMethodAfterLogin | includes/homebox_api.py:183-194 | without a cached token an unsupported method is rejected only after the login POST, and the new token stays cached |
| Dispatch.RetryLogsInAndResends | includes/homebox_api.py:209-221 | the retry sends one login POST, then the message again with the new token, and classifies the answer |
| Dispatch.UnauthorizedGoesToRetry | includes/homebox_api.py:209-213 | a 401 to the first attempt leads to the retry, starting without a token |
| Dispatch.RefreshAfterUnauthorized | includes/homebox_api.py:209-221 | an answer sequence of 401, a token and an answer: three messages, one more login, the new token cached, and the last answer classified as the result |
| Dispatch.NoSecondRefresh | includes/homebox_api.py:214-228 | 401, a token and 401 again give None after exactly three messages: there is no third attempt |
| Dispatch.RefreshLoginFailurePropagates | includes/homebox_api.py:214-228 | when the login after a 401 fails, the request raises ConnectionError and no token is cached |
| Dispatch.FirstRequestLogsIn | includes/homebox_api.py:168-207 | the first request without a token sends the login POST and then the message with the new token, and classifies the answer |
| Dispatch.RequestsSpec | includes/homebox_api.py:36 | requests made one after the other share the state; when none raises, there is one result per request |
| Dispatch.CachedCall | includes/homebox_api.py:166-207 | with a cached token and no 401 ahead, a request is one message with that token, and no 401 remains ahead |
| Dispatch.CachedTokenReused | includes/homebox_api.py:131-132 | with a cached token and no 401 ahead, any number of requests succeed with one message each, all carrying that token, and with no login |
| Dispatch.OneLoginForManyRequests | includes/homebox_api.py:129-176 | starting without a token, a successful login and no 401 ahead, any number of requests log in exactly once and leave the cleaned token cached |
| Accessors.AccessorVerbsSupported | includes/homebox_api.py:185-191 | the methods the accessors pass (GET, PUT, DELETE) are in the table |
| Accessors.GetOrEmpty | includes/homebox_api.py:243-245 | `request("GET", …) or []` is the fetched value when it is truthy and `[]` otherwise; login errors are raised; the state is the request's |
| Accessors.GetAllItemsSpec | includes/homebox_api.py:262-272 | `get_all_items` unwraps the fetched value as `ItemsFrom` does; login errors are raised |
| Accessors.FailedGetIsNone | includes/homebox_api.py:229-239 | with a cached token, a GET answered by a transport failure or an error status other than 401 gives None |
| Accessors.FailedFetchFallsBackToEmpty | includes/homebox_api.py:243-272 | such a failed fetch leaves `get_all_labels` and `get_all_items` with `[]` |
| Accessors.GetArchivedItemsSpec | includes/homebox_api.py:280-292 | `get_archived_items` gives a list of archived dicts, exactly the archived items of a fetched list in order |
| Accessors.GetAttachmentsSpec | includes/homebox_api.py:326-334 | `get_attachments` is the attachment list of the fetched item, or `[]` |
| Accessors.DeleteSpec | includes/homebox_api.py:248-257 | a deletion succeeds exactly when `request` returned True; login errors are raised |
| Accessors.DeleteAnswered | includes/homebox_api.py:250-257 | with a valid token and no 401, a deletion is one DELETE whose classified answer decides the result |
| Accessors.ConfirmedAnswers | includes/homebox_api.py:491-501 | a deletion is confirmed exactly by a 204, or by a 200/201 whose body is `true` |
| Accessors.DeletionConfirmedIff | includes/homebox_api.py:248-257 | with a valid token and no 401, a deletion reports success exactly on 204 or a 200/201 `true`, after one DELETE to the endpoint |
| Accessors.DownloadFileNameSpec | includes/homebox_api.py:337-359 | None exactly when the attachments were fetched and the search finds none with the id; a name is the file name derived from the first match |
| Accessors.UpdateAttachmentSpec | includes/homebox_api.py:504-550 | a rejected or empty payload returns None with nothing sent; otherwise the state is that of one `request` PUT of the payload, its login errors are raised, and its result is `UpdateOutcome` of what that request returned |
| Accessors.UpdateSendsPayload | includes/homebox_api.py:532-539 | with a valid token and no 401, the payload goes out in exactly one PUT to the attachment's endpoint |
| Accessors.GetEmptyLabelsSpec | includes/homebox_api.py:556-598 | labels are fetched before items, and the result is the report `EmptyLabels` gives on what was fetched |
| Accessors.DeleteMessages | includes/homebox_api.py:626-627 | one DELETE per label, in order, addressed by the text of its id |
| Accessors.DeleteWithValidToken | includes/homebox_api.py:248-257 | with a valid token and no 401 ahead, a deletion sends one DELETE and keeps the token |
| Accessors.DeleteEach | includes/homebox_api.py:626-627 | the delete loop raises only login errors or KeyError for a label without a name, which it raises before that label's DELETE |
| Accessors.DeleteEachWithValidToken | includes/homebox_api.py:626-627 | with a valid token, no 401 ahead and named labels, the loop sends exactly one DELETE per label, in order, whatever the server answers |
| Accessors.FindAndDeleteSpec | includes/homebox_api.py:601-629 | the cleanup only moves the client state forward: nothing is unsent and no answer is reused |
| Accessors.CachedLabelsFetch | includes/homebox_api.py:243-245 | with a valid token and no 401 ahead, `get_all_labels` is one GET whose answer, or `[]`, is the result |
| Accessors.CachedItemsFetch | includes/homebox_api.py:262-272 | with a valid token and no 401 ahead, `get_all_items` is one GET whose answer is unwrapped |
| Accessors.CachedFetches | includes/homebox_api.py:604-605 | the cleanup's two fetches are one GET each, labels first |
| Accessors.FindAndDeleteAfterFetches | includes/homebox_api.py:607-627 | once both lists are fetched and the labels marked for deletion are known, the rest of the cleanup is the delete loop over them |
| Accessors.CachedCleanup | includes/homebox_api.py:604-627 | with a valid token the cleanup is the two GETs followed by the delete loop |
| Accessors.FindAndDeleteDeletesUnused | includes/homebox_api.py:601-629 | with a valid token and no 401 ahead the cleanup sends a GET of the labels, a GET of the items, then one DELETE per unused label in order, and nothing else |
| Client.HomeboxApi.constructor | includes/homebox_api.py:34-36 | a new client has no cached token and has sent nothing |
| Client.HomeboxApi.Send | includes/homebox_api.py:197 | one message over the transport, as `Exchange` describes |
| Client.HomeboxApi.Login | includes/homebox_api.py:129-163 | returns and leaves behind exactly what `LoginSpec` describes |
| Client.HomeboxApi.GetHeaders | includes/homebox_api.py:166-176 | returns and leaves behind exactly what `GetHeadersSpec` describes |
| Client.HomeboxApi.Request | includes/homebox_api.py:180-239 | returns and leaves behind exactly what `RequestSpec` describes |
| Client.HomeboxApi.GetAllLabels | includes/homebox_api.py:243-245 | returns and leaves behind exactly what `GetOrEmpty` describes for `labels` |
| Client.HomeboxApi.GetItem | includes/homebox_api.py:275-277 | returns and leaves behind exactly what `GetOrEmpty` describes for `items/<id>` |
| Client.HomeboxApi.DeleteLabel | includes/homebox_api.py:248-257 | returns and leaves behind exactly what `DeleteSpec` describes for `labels/<id>` |
| Client.HomeboxApi.GetAllItems | includes/homebox_api.py:262-272 | returns and leaves behind exactly what `GetAllItemsSpec` describes |
| Client.HomeboxApi.GetArchivedItems | includes/homebox_api.py:280-292 | returns and leaves behind exactly what `GetArchivedItemsSpec` describes |
| Client.HomeboxApi.GetAttachments | includes/homebox_api.py:326-334 | returns and leaves behind exactly what `GetAttachmentsSpec` describes |
| Client.HomeboxApi.DownloadFileNameFor | includes/homebox_api.py:337-359 | returns and leaves behind exactly what `DownloadFileNameSpec` describes |
| Client.HomeboxApi.DeleteAttachment | includes/homebox_api.py:481-501 | returns and leaves behind exactly what `DeleteSpec` describes for the attachment endpoint |
| Client.HomeboxApi.UpdateAttachment | includes/homebox_api.py:504-550 | returns and leaves behind exactly what `UpdateAttachmentSpec` describes |
| Client.HomeboxApi.GetEmptyLabels | includes/homebox_api.py:556-598 | returns and leaves behind exactly what `GetEmptyLabelsSpec` describes |
| Client.HomeboxApi.FindAndDeleteEmptyLabels | includes/homebox_api.py:601-629 | returns and leaves behind exactly what `FindAndDeleteSpec` describes |
| Client.HomeboxApi.DeleteLabels | includes/homebox_api.py:626-627 | the loop of `delete_label` calls returns and leaves behind exactly what `DeleteEach` describes |
| Client.BuildPayload | includes/homebox_api.py:508-530 | the dict filled field by field is the payload `UpdatePayload` describes |
| Client.ReportEmptyLabels | includes/homebox_api.py:562-598 | the report computed with the nested loops is the report `EmptyLabels` describes |
| Client.ReportUnused | includes/homebox_api.py:586-598 | the listing of unused labels is the one `UnusedReport` describes |

## Left out

- Credential handling (`store_credentials`, `get_credentials`, `clear_stored_credentials`). They go through `keyring`, `input` and `getpass`, which are interactive I/O and a foreign store. The credential lookup is a fixed oracle in the state: a pair of strings or nothing.
- Configuration loading in `__init__` with `configparser` is file I/O. The base URL is a parameter of the constructor, and the service-name default (`TestHomeboxAPI`) plays no part here.
- The `requests` transport, JSON decoding of response bodies, streaming and timeouts are foreign code. Each message takes the next scripted answer, whose body is already decoded. When the script runs out, a message fails at the transport level; that is a convention of the model.
- A response body that is not valid JSON is left out, because decoding is not modelled.
- Floating-point JSON numbers are left out. Numbers are integers only.
- `get_default_download_path` and the file write of `download_attachment_by_id` are left out. They depend on the operating system, the environment and the file system.
- `download_attachment_by_id` is modelled up to the file name. The rest (the lines after line 359) is left out, because it is a binary transfer and file I/O. What the model does not capture there:
  - the `get_headers()` call before the binary GET, which can log in (a POST, a newly cached token, or ConnectionError);
  - the binary GET itself, whose transport errors escape because it is outside any `try`;
  - the return value: None with the default `save_to_disk=True`, the bytes otherwise, and None on a status other than 200.
- `download_attachment_raw` is left out, because it only moves bytes. Its `get_headers()` call can log in like the one above, and its transport errors become None.
- `upload_attachment` is left out. It opens a file, relies on `mimetypes.guess_type` (a table outside the repository) and posts a multipart body.
- `download_raw` calls `_get_headers`, which the class does not define, so it raises AttributeError before any request. Only its endpoint assembly is modelled.
- All `print` logging is left out, and so are concurrent callers sharing the class-level token.
- Client.HomeboxApi.constructor: the token is modelled per instance, so a new instance starts without one. In the source `_TOKEN` is a class attribute that `__init__` never resets, so an instance created after another one in the same process starts with whatever token the earlier one cached.
- The example scripts under `examples/` are callers with no logic of their own.
- PyText.Upper: only ASCII letters are mapped, not Python's full Unicode case mapping. That is enough for the method names the client's callers pass. Python would also accept names such as `poſt`, whose upper case is `POST`, and the model rejects them.
- PyValues.Elements: the keys of a dict come back as placeholder empty strings, because no caller in the client inspects their text.
- Filenames.SplitExt: models POSIX `os.path.splitext` only. The Windows variant also splits at backslashes.
- Dispatch.RequestsSpec: stands for a caller issuing requests one after the other. It is not a function of the client itself.
- PyText.RemoveAll: its own contract is only a length bound. What it computes is stated step by step by `RemoveAllShort`, `RemoveAllPrefix` and `RemoveAllSkip`.
- Accessors.FindAndDeleteSpec: its own contract only says the state moves forward. What it sends is stated by `Accessors.FindAndDeleteDeletesUnused` for the case of a valid token and no 401.

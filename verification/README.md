# Mail dispatch model

A Dafny model of the e-mail dispatch pipeline of `app/mail_handler.py`. The
pipeline sends templated campaign mail through a mail provider's HTTP API, either
to one address or to a table of recipients in batches. The model covers five
parts, and the proofs are about what each part promises:

- **Address check** (`EMAIL_REGEX`, `is_valid_email`), in module `Email`.
- **Chunker** (`chunk_list`), in module `Chunking`.
- **Recipient builder** (`build_recipients`), in module `Recipients`. It trims
  each row, drops rows with a missing or malformed address, and resolves the
  display name (full name, then user name, then `"User"`). It gives each
  recipient the campaign variables with `name` overridden, and fails when no
  row survives.
- **Retry loop** (`send_with_retry`), in module `Retry`. It makes up to three
  POSTs, accepts status 200, 201 or 202, and sleeps 2 s and then 4 s between
  attempts.
- **Entry points** (`send_single_message`, `send_batch_message`), in module
  `Dispatch`. Both check the API credential. The batch entry point sends the
  recipients in chunks of 500 and collects a result: the total, the number
  sent, and the 1-based indices of the batches that failed.

Modules `Outcomes` (error kinds, `Result`, `Option`) and `Text` (Python's
`str.strip`, the case-insensitive `"nan"` test, `split('@')[0]`) support the
others.

The network is an oracle. A `Retry.Responder` maps each attempt number
(counted from 1) to a status code or a transport error. A `Dispatch.Network`
gives one responder per batch index. `time.sleep` becomes a trace of
durations. Each POST becomes an envelope in a trace. A run is therefore its
outcome plus the requests and sleeps it performed. That is how "raises before
any network call" and "sleeps only between attempts" are stated.

Python details the model keeps:

- Whitespace is the set `str.isspace` uses. Both `strip()` and the regular
  expression's `\s` use that set.
- `re.match` with `$` also accepts one trailing newline
  (`Email.TrailingNewlineAccepted`). `build_recipients` strips the address
  first, so there the test is exactly the four structural conditions
  (`Email.ValidTrimmedIsShape`).
- The pattern's final run excludes `@` as well as whitespace. The address must
  therefore hold exactly one `@`. The code is followed here.
- `merge_info["team"]` raises `KeyError` when the key is absent. Both entry
  points read it while forming the payload, before the first POST. The batch
  entry point reads it only after the recipients are built. This is modelled
  as the error `MissingMergeKey("team")`, so a batch run fails when recipients
  are built but `team` is missing.
- The retry constants say "2s, 4s, 8s" in a comment. The code never sleeps
  after the third attempt, so the sleeps are 2 s and 4 s at most
  (`Retry.ExhaustedRetries`).

## Model

| member | source | states |
|---|---|---|
| Text.Strip | app/mail_handler.py:50-52 | the result has no leading or trailing whitespace and is the slice of the cell between its leading and trailing whitespace runs |
| Text.BeforeFirst | app/mail_handler.py:141 | the result is the longest prefix of the address without `@`, and it is followed by `@` whenever it is shorter than the address |
| Email.ShapeIsFullMatch | app/mail_handler.py:23 | the anchored pattern matches a string exactly when it has one `@`, no whitespace, a non-empty local part, and a dot with a character on each side in the domain part |
| Email.IsValidEmailIsRegexMatch | app/mail_handler.py:23-35 | `is_valid_email` holds exactly when `re.match` succeeds, including the `$` match before one final newline |
| Email.ValidTrimmedIsShape | app/mail_handler.py:50-58 | on a stripped address the validity test is exactly the four structural conditions |
| Email.TrailingNewlineAccepted | app/mail_handler.py:23-35 | an address followed by a newline passes `is_valid_email` although it is not of the valid shape |
| Chunking.CeilDivIsCeiling | app/mail_handler.py:174 | the batch count is the least number whose multiple of the batch size covers the total |
| Chunking.ChunkList | app/mail_handler.py:38-40 | there are ceil(len/size) chunks, none for an empty input, each chunk holds 1 to size items, and only the last may be short |
| Chunking.ChunkListRoundTrip | app/mail_handler.py:38-40 | concatenating the chunks gives back the input exactly, in order |
| Chunking.ChunkListIndex | app/mail_handler.py:39-40 | chunk k is the slice `items[k*size : k*size+size]`, clamped at the end of the input |
| Chunking.TwelveHundredByFiveHundred | app/mail_handler.py:38-40 | 1200 items in chunks of 500 make chunks of 500, 500 and 200 items |
| Recipients.ResolveName | app/mail_handler.py:62-64 | the name is the full name if usable, else the user name if usable, else "User", so it is never empty or "nan" |
| Recipients.WithName | app/mail_handler.py:71-74 | the merge map has the campaign keys plus `name`, `name` maps to the resolved name, and every other key keeps its campaign value |
| Recipients.ClassifyRow | app/mail_handler.py:50-75 | a row is dropped as missing exactly when its stripped address is empty or "nan", dropped as invalid exactly when it is usable but malformed, and otherwise kept as a well-formed record of the stripped address under the resolved name |
| Recipients.Kept | app/mail_handler.py:49-75 | the builder never emits more records than there are rows |
| Recipients.KeptEmpty | app/mail_handler.py:49-77 | no record is emitted exactly when every row is dropped |
| Recipients.KeptWellFormed | app/mail_handler.py:54-75 | every emitted record has a valid, non-"nan" address, a usable name, and the campaign variables with that name as `name` |
| Recipients.KeptMembership | app/mail_handler.py:49-75 | a record is emitted exactly when some row yields it |
| Recipients.KeptAppend | app/mail_handler.py:49-75 | rows are handled independently and in order: the records for `a + b` are those for `a` followed by those for `b` |
| Recipients.MissingEmailDropped | app/mail_handler.py:54-56 | a row whose stripped address is empty or "nan" contributes nothing, wherever it sits |
| Recipients.InvalidEmailDropped | app/mail_handler.py:58-60 | a row whose stripped address is malformed contributes nothing, wherever it sits |
| Recipients.SingleRow | app/mail_handler.py:66-75 | a valid row yields exactly one record, addressed to its stripped address under its resolved name, with `name` overridden in the merge map |
| Recipients.NameFallback | app/mail_handler.py:62-64 | a row whose names are both blank or "nan" is addressed to "User" |
| Recipients.BuildRecipients | app/mail_handler.py:77-80 | the builder fails with no valid recipients exactly when no row is kept, and otherwise returns the non-empty kept records |
| Retry.RetryFrom | app/mail_handler.py:87-111 | from a given attempt on, the loop stops at the first accepted attempt or fails at the third, every earlier attempt was rejected, and it sleeps 2^attempt after each rejected attempt but the last |
| Retry.SendWithRetry | app/mail_handler.py:83-111 | one to three POSTs; success exactly when one of the three attempts is accepted, and then on the first accepted one; on failure exactly three attempts; one sleep fewer than attempts, the i-th lasting 2^i seconds |
| Retry.SuccessAfterFailures | app/mail_handler.py:96-109 | after k rejected attempts and an accepted one, the call succeeds on attempt k+1 having slept the first k of 2 s and 4 s |
| Retry.ExhaustedRetries | app/mail_handler.py:106-111 | when all three attempts are rejected the call raises after three POSTs, having slept exactly 2 s and 4 s |
| Dispatch.SendChunks | app/mail_handler.py:182-201 | the failed batch indices increase strictly, lie within the chunks' index range, and `sent` is the total size of the chunks not listed as failed |
| Dispatch.SendChunksFailures | app/mail_handler.py:194-201 | a batch is listed as failed exactly when all of its attempts were rejected |
| Dispatch.SendChunksTraffic | app/mail_handler.py:182-201 | every chunk's envelope is posted; in total there are between one and three POSTs per chunk, and exactly one sleep fewer per chunk than POSTs |
| Dispatch.SendChunksPosts | app/mail_handler.py:182-195 | the POST trace is the per-batch traces in batch order, batch k's being its own envelope once per attempt of its retry loop |
| Dispatch.SendChunksSleeps | app/mail_handler.py:182-195 | the sleep trace is the sleeps of the batches' retry loops in batch order, with nothing slept between batches |
| Dispatch.SendInBatches | app/mail_handler.py:173-212 | total is the recipient count; failed batches increase strictly, lie in [1, ceil(total/500)] and are exactly the undelivered batches; `sent` is the size of the other chunks and at most total |
| Dispatch.SendBatchMessage | app/mail_handler.py:151-212 | a missing or empty credential, no valid recipients, or a missing `team` fails before any POST or sleep; otherwise the call succeeds with the batch run over the kept recipients |
| Dispatch.SendSingleMessage | app/mail_handler.py:118-148 | a missing credential or `team` fails with no POST; otherwise every POST addresses exactly one recipient named by the part of the address before the first `@`; the call succeeds exactly when one of the three attempts is accepted, posting stops at the first accepted attempt, the POSTs and sleeps are exactly those of one `send_with_retry` run (so a failed call has made three POSTs and slept 2 s and 4 s), and the i-th sleep lasts 2^i seconds |
| Dispatch.EveryRecipientAttempted | app/mail_handler.py:182-201 | every recipient appears in some posted batch, so a failing batch never stops later ones |
| Dispatch.BatchTraffic | app/mail_handler.py:182-201 | a batch run's POST and sleep traces are the per-batch traces of its ceil(total/500) batches, in batch order |
| Dispatch.BatchPosts | app/mail_handler.py:182-195 | each batch is posted once per attempt of its retry loop, so one to three times, and only with its own envelope |
| Dispatch.BatchSleeps | app/mail_handler.py:182-195 | each batch sleeps one time fewer than its retry loop posts, the i-th sleep lasting 2^i seconds |
| Dispatch.NoFailedBatchMeansAllSent | app/mail_handler.py:197-211 | with no failed batch every recipient counts as sent |
| Dispatch.SecondOfThreeBatchesFails | app/mail_handler.py:173-212 | 1200 recipients whose second batch is rejected three times give total 1200, sent 700, failed batches [2] |

## Left out

- Logging: the `logging` calls only report and change nothing.
- The HTTP details are constants or effects the model does not track: the URLs,
  headers, the 30-second timeout, the template key, the from-address and the
  response body.
- JSON serialisation: payloads are datatypes instead.
- The network's answer does not depend on the payload. A responder sees only
  the attempt number, and for a batch run, the batch index.
- `pandas.read_csv`, `iterrows` and `str()` of cells are not modelled. Rows
  arrive as strings, and a NaN cell arrives as the text `"nan"`.
- `os.getenv` and `dotenv` are not modelled. The credential is an optional
  string parameter.
- Only `RequestException` and non-accepted statuses are modelled. Any other
  exception raised inside `requests.post` is not.
- `math.ceil(total / 500)` uses floating point. It is modelled as exact
  integer ceiling division, which agrees for every realistic total.
- `str.lower()` is reduced to the three-letter comparison with "nan". Apart
  from `n`, `a`, `N` and `A`, no character lowercases to `n` or `a`.
- Chunking.ChunkList: requires a positive size. For other sizes `range`
  raises `ValueError` on a step of 0 and yields nothing on a negative step;
  the only caller passes the constant 500 (line 182).
- `app/views.py`, `app/models.py`, `app/urls.py`, `server/urls.py` and
  `webapp/views.py` are not part of this model. They are HTTP routing, ORM
  declarations and template rendering.

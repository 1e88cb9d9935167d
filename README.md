# Phishing-awareness campaign engine, modelled in Dafny

The application sends simulated phishing messages and records how recipients react. Each message carries a fresh
token. A correlation file maps that token to the recipient's address and the campaign. An append-only CSV log
records events (message sent, pixel loaded, link clicked, attachment downloaded). A second CSV log is meant for
submitted credentials, but the code as written never writes to it: its only writer is called from the unreachable
end of the login form. A JSON file holds the campaigns, and a campaign is launched by sending to each of its
recipients in turn.

This project models that bookkeeping core of `app.py`:

- the recipient parser;
- the correlation store (register a token, look one up);
- the CSV logs at the level of cells (append a row, read the rows back as dictionaries);
- the dispatch of one message, with the mail server's answer as an input;
- campaign creation and launch, including the success counting and the update of the one launched campaign;
- the tracking callbacks and the login form;
- the two sort orders: campaigns newest first, and the report page's logs newest first.

Python's own behaviour is written out where the code depends on it:

- `str.strip` and `str.splitlines` with Python's whitespace and line-break sets, and single-character `replace`;
- string comparison by code point;
- `sort(reverse=True)` as a stable descending sort;
- `csv.DictWriter` filling missing fields with "" and `csv.DictReader` letting a later duplicate column win;
- `x or ""`.

Module layout, one file each:

- `Wrappers`: `Option`, and `OrEmpty` for `x or ""`.
- `Text`: `strip`, `splitlines`, `replace`.
- `Ordering`: string order, the stable descending sort.
- `Recipients`: `parse_recipients`.
- `CsvLog`: class `CsvFile`.
- `Correlation`: class `HashMapFile`.
- `Campaigns`: the `Campaign` value, the lookup and counter update, class `CampaignsFile`.
- `PhishingApp`: class `App`, which owns the four files and holds the operations.

Three inputs come from outside the application and are parameters:

- the clock, as timestamp strings;
- the token generator, as a token per send;
- the mail server, as `Accepted` or `Failed(error)` per send.

A launch receives one `Attempt(token, smtp, at)` per recipient index.

Two facts about the code shape the model:

- Registering a token that is already present overwrites its entry; there is no duplicate check, and `RegisterHash` does the same.
- The login form returns at app.py:416, before the capture lines at app.py:418-425, so `Login` writes nothing.

## Model

| member | source | states |
|---|---|---|
| Wrappers.OrEmpty | app.py:153-158 | `x or ""` on an optional string: the string itself when present, "" when absent |
| Text.Strip | app.py:135 | the stripped line is a slice of the line with only whitespace cut off before and after it, and it neither starts nor ends with whitespace |
| Text.StripEmpty | app.py:135-136 | a line strips to "" exactly when it is all whitespace, so exactly those lines are dropped |
| Text.SplitLines | app.py:134 | no line produced by `splitlines` contains a line break, and every character of a line comes from the text |
| Text.LineEnds | app.py:134 | the boundary cut after each line is one break character or "\r\n", or "" after a last line that runs to the end |
| Text.SplitLinesRejoin | app.py:134 | `splitlines` loses no text: each line followed by the boundary cut after it, concatenated, gives back the text |
| Text.ReplaceChar | app.py:132-133 | `replace` keeps the length; each occurrence of the separator becomes a newline and every other character stays |
| Recipients.ReplaceAll | app.py:130-133 | after the separator loop, every comma, newline and semicolon is a newline and every other character is unchanged |
| Recipients.Pieces | app.py:134-135 | one stripped entry per line, in line order |
| Recipients.Collect | app.py:134-137 | the kept entries are non-empty, are among the stripped lines, and are pairwise distinct |
| Recipients.ParseRecipients | app.py:126-138 | the loops compute the parsed list: non-empty entries taken from the input's stripped lines, no duplicates |
| Recipients.EmptyInput | app.py:128-129 | the empty string parses to the empty list |
| Recipients.CollectComplete | app.py:134-137 | every non-empty stripped line ends up in the list |
| Recipients.CollectOrder | app.py:134-137 | the list follows the order of each entry's first occurrence among the stripped lines |
| Recipients.EntryChars | app.py:130-135 | no entry contains a comma, a semicolon or a line break |
| Recipients.ParsedRecipientsWellFormed | app.py:126-138 | every address returned is non-empty, has no surrounding whitespace, contains no separator or line break, and occurs once |
| Recipients.ParsedRecipientsComplete | app.py:134-137 | every non-empty entry of the input is returned |
| Recipients.ParsedRecipientsOrdered | app.py:134-137 | addresses are returned in the order of their first occurrence in the input |
| Ordering.LexLeReflexive | app.py:117 | Python's string comparison: every string is at most itself |
| Ordering.LexLeTotal | app.py:117 | Python's string comparison: any two strings are comparable |
| Ordering.LexLeTransitive | app.py:117 | Python's string comparison is transitive |
| Ordering.LexLeAntisymmetric | app.py:117 | two strings each at most the other are equal |
| Ordering.SortDescPermutation | app.py:117 | the descending sort loses and adds nothing |
| Ordering.SortDescSorted | app.py:117 | after the sort, keys never increase along the list |
| Ordering.SortDescStable | app.py:117 | items with equal keys keep their original relative order, as `sort(reverse=True)` does |
| CsvLog.RowCells | app.py:68-72 | the row is written as one cell per field |
| CsvLog.ReadBackRow | app.py:65-80 | a row written under a header and read back under that header is the row with "" for every missing field |
| CsvLog.CompletedFullRow | app.py:146-180 | a row with exactly the file's fields reads back unchanged |
| CsvLog.Records | app.py:75-80 | an absent or empty file reads as no records; otherwise there is one record per line after the header |
| CsvLog.RecordsFromLines | app.py:75-80 | record k is line k + 1 read against the header line |
| CsvLog.CsvFile.AppendDictRow | app.py:65-72 | the header is written first exactly when the file was absent or empty, then the row; earlier lines stay, and read back the file has this one record more at the end |
| Correlation.HashMapFile.GetHashInfo | app.py:105-109 | a falsy or unknown token gives no email and no campaign; an email is found only for a registered token; the store is only read |
| Correlation.HashMapFile.RegisterHash | app.py:95-102 | the token's entry is set, overwriting any earlier one; looking the token up then answers this email and campaign; every other token looks up as before |
| Campaigns.FindCampaign | app.py:289 | the first campaign with the id, and none exactly when no campaign has it |
| Campaigns.MarkLaunched | app.py:309-315 | the update loop changes only the first campaign with the id: its counter is raised and its last-sent time set; a list without the id is unchanged |
| Campaigns.TotalSentSorted | app.py:117 | sorting the campaigns leaves the total of their counters unchanged |
| Campaigns.LaunchBookkeeping | app.py:288-316 | the saved list has as many campaigns as the file. Only the launched campaign differs. Its counter rose by the success count and its last-sent time is set, and the total over all campaigns rose by exactly the success count |
| Campaigns.CampaignsFile.LoadCampaigns | app.py:112-118 | the loaded list is the stored campaigns, newest `created_at` first, with equal times in file order |
| Campaigns.CampaignsFile.SaveCampaigns | app.py:121-123 | the file then holds exactly the given list |
| PhishingApp.EventRowFields | app.py:146-160 | an event row has exactly the event log's columns; absent token, email, campaign or details become "" |
| PhishingApp.CredentialRowFields | app.py:165-179 | a credential row has exactly the credential log's columns, with username and password verbatim |
| PhishingApp.BatchAccounting | app.py:300-307 | successes plus reported failures equal the number of recipients |
| PhishingApp.OneSentRowPerSuccess | app.py:214-216 | a batch logs `email_sent` exactly as many times as sends succeeded |
| PhishingApp.RegisterAllKeys | app.py:302-303 | a batch registers exactly the tokens of its sends and removes no entry |
| PhishingApp.RegisterAllCorrelates | app.py:302-303 | with distinct tokens, each recipient's token maps to that recipient and the campaign after the batch |
| PhishingApp.RegisterAllKeepsOthers | app.py:302-303 | a token not used by the batch keeps its entry |
| PhishingApp.App.LogEvent | app.py:146-162 | one row at the end of the event log, with a header first only for an absent or empty log; read back, exactly this record more |
| PhishingApp.App.LogCredentials | app.py:165-180 | one row at the end of the credential log, with a header first only for an absent or empty log; read back, exactly this record more |
| PhishingApp.App.SendPhishingEmail | app.py:184-216 | the token is registered whether or not the send succeeds; success exactly when the server accepts; the answer is the token or the error; `email_sent` is logged only on success |
| PhishingApp.App.CreateCampaign | app.py:252-279 | a blank name or no parsed recipient saves nothing. Otherwise exactly one campaign is added after the loaded list. It has the stripped name and description, the parsed recipients, no last-sent time and a zero counter |
| PhishingApp.App.SendNext | app.py:302-307 | one turn of the send loop extends the success count, the error list, the correlation map and the event log by that recipient's outcome |
| PhishingApp.App.SendBatch | app.py:300-307 | every recipient is sent to in order, a failure not stopping the batch. The count, the "email: error" list, the registrations and the `email_sent` records are those of the batch |
| PhishingApp.App.LaunchCampaign | app.py:286-316 | an unknown id or an empty recipient list changes no file. Otherwise the batch runs and the loaded list is saved with only the launched campaign's counter and last-sent time changed |
| PhishingApp.App.RecordEngagement | app.py:331-366 | a tracking callback logs its stage's event with the email and campaign the token maps to, or "" for both when the token is missing or unknown |
| PhishingApp.App.Login | app.py:408-416 | the login form redirects to the real sign-in page and writes nothing: no credential, event or correlation change |
| PhishingApp.App.Visualize | app.py:379-390 | both logs are shown complete, newest timestamp first, with records of equal timestamp in logged order |

## Left out

- Web glue is not modelled, because it adds no logic of its own:
  - Flask routing, templates, `flash` messages, `redirect` and `url_for`;
  - the home page's counts, the guide page and the 404 handler;
  - the `/sendphishing` form, which strips the address and calls the same send;
  - the file served by `/download`, including its 404 when the attachment is missing.
- Sending mail is not modelled: SMTP, MIME construction and the message template. The server's answer is an input.
- `create_hash` is not modelled, because it depends on `uuid` entropy. The token is an input. Only `RegisterAllCorrelates` needs the tokens of a batch to be distinct, and takes that as a precondition.
- `datetime.utcnow()` and `format_timestamp` are not modelled. Timestamps are opaque input strings.
- SendPhishingEmail: uses one timestamp for both the correlation entry's `created_at` and the `email_sent` row, where the source reads the clock twice.
- JSON and CSV byte formats and file I/O are not modelled. Files are in-memory values. A CSV file is a sequence of lines of cells, so delimiter, quoting and encoding are below the model.
- An absent correlation file is the empty map.
- Hand-edited data files are not modelled: campaigns missing a field (the source's `.get(..., default)` fallbacks) and CSV lines whose cell count differs from the header. The model only holds files the application itself writes.
- The credential-capture and `credentials_submitted` lines after the early return in `login` (app.py:418-425) are unreachable and are not modelled. `log_credentials` is modelled on its own.
- Concurrency is not modelled: lost updates between load and save, and interleaved appends. Every operation runs to completion on its own.

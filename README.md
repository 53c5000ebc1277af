# Member QA: context assembly and prompt construction

This project models the deterministic core of the member question-answering service in
`qa_app.py`, a single-file web application. For each question it does the following:

- strip and validate the question, and refuse a blank one with status 400 before any fetch;
- fetch the member-message feed; an HTTP failure becomes status 502;
- render the feed's `items` into one text block: the header `Member messages:\n`, then one line
  `- {user} (on {ts}): {msg}` per item in feed order, joined by newlines;
- cut that block to its last 6000 characters when it is longer;
- build a fixed system instruction, which carries the fallback sentence, and the user message
  `Context:\n{context}\n\nQuestion: {question}\nProvide a concise answer.`;
- at import time, make sure the configured feed URL ends in `/`.

Modules:

- `Wrappers`: `Option` and `Result`.
- `Strings`: Python's `str.join`, `str.strip`, `str.isspace` and `str.endswith` as functions.
- `Settings`: the feed URL setting. It is a class because the source reassigns a module-level
  variable.
- `MemberContext`: the feed records and `build_context`. That function is an imperative method
  with a loop, proved against the function `ContextOf`.
- `Prompt`: the prompt templates.
- `QaApp`: the question check, the key check and the request flow of `/ask`.

Every function of the model is a mathematical function. So the same context and question
always give the same prompt, byte for byte.

The context is cut by a raw character suffix, which may start in the middle of a line. An empty
feed, or one without an `items` key, renders only the header.

## Model

| member | source | states |
|---|---|---|
| `MemberContext.BuildContext` | qa_app.py:73-84 | The result is the trimmed rendering `ContextOf(data)`. It is at most 6000 characters. With no items, or no `items` key, it is exactly the header `Member messages:\n`. |
| `MemberContext.TrimContext` | qa_app.py:84 | The result is a suffix of the input and at most 6000 characters long. An input of at most 6000 characters comes back unchanged. A longer one is cut to exactly its last 6000 characters. |
| `MemberContext.ContextLines` | qa_app.py:75-81 | The list that is joined has item-count + 1 entries. The header is first, then record k's line at position k + 1, in feed order. An absent `items` key counts as no records. |
| `MemberContext.FullContextShape` | qa_app.py:76-82 | The untrimmed rendering is the header followed by a newline and a line for each record, in order. |
| `MemberContext.LineOccurs` | qa_app.py:77-82 | Each record's line `- {user} (on {ts}): {msg}` appears verbatim, after a newline, at its computed offset in the untrimmed rendering. |
| `MemberContext.LinesInFeedOrder` | qa_app.py:77-81 | For j < k, the line of record j ends before the line of record k begins. |
| `MemberContext.TrimKeepsShortTails` | qa_app.py:84 | Any tail of the untrimmed rendering that is at most 6000 characters long is also a tail of the returned context. |
| `MemberContext.LastLineKept` | qa_app.py:81-84 | The last record's line, with its newline, ends the returned context whenever it fits in 6000 characters. |
| `MemberContext.MissingFieldDefaults` | qa_app.py:78-80 | An absent `user_name` renders as `Unknown`. An absent `message` or `timestamp` renders as the empty string. A record with no fields renders as `- Unknown (on ): `. |
| `Strings.JoinCons` | qa_app.py:82 | Joining a head and further parts with a separator gives the head followed by the separator and the part, for each further part. |
| `Strings.TrimStart` | qa_app.py:114 | The result is a suffix of the input. Every dropped character is whitespace. The result does not start with whitespace. |
| `Strings.TrimEnd` | qa_app.py:114 | The result is a prefix of the input. Every dropped character is whitespace. The result does not end with whitespace. |
| `Strings.Strip` | qa_app.py:114 | The result is a contiguous slice of the input. Everything before and after it is whitespace. A non-empty result neither starts nor ends with whitespace. |
| `Strings.StripEmptyIff` | qa_app.py:114-115 | The stripped question is empty exactly when every character of the input is whitespace. |
| `Strings.StripIdempotent` | qa_app.py:114 | Stripping twice equals stripping once. |
| `QaApp.ValidateQuestion` | qa_app.py:114-116 | A question is accepted exactly when it holds a non-whitespace character. The accepted value is the stripped input and is non-empty. An absent, empty or all-whitespace question gives status 400 with detail "Question cannot be empty". |
| `Settings.WithTrailingSlash` | qa_app.py:28-30 | The result always ends in `/`. It equals the input exactly when the input already ends in `/`. Otherwise it is the input plus one `/`. |
| `Settings.WithTrailingSlashIdempotent` | qa_app.py:28-30 | Applying the rule twice equals applying it once. |
| `Settings.Config.constructor` | qa_app.py:26-30 | The stored feed URL is the environment value, or the default URL when the variable is unset, normalised to end in `/`. |
| `Prompt.SystemInstructionEndsWithFallback` | qa_app.py:94-97 | The fixed system instruction ends with the exact fallback sentence "I don't have enough information to answer that question.". |
| `Prompt.UserMessage` | qa_app.py:98 | The message starts with `Context:\n` and holds the context verbatim right after it. Then come `\n\nQuestion: ` and the question verbatim. It ends with `\nProvide a concise answer.`. Its length is the sum of the parts. |
| `Prompt.UserMessageDeterminesParts` | qa_app.py:98 | Two contexts of the same length that give equal user messages are equal, and so are their questions. |
| `Prompt.UserMessageAmbiguous` | qa_app.py:98 | For all strings a, b and c, the context `a + "\n\nQuestion: " + b` with question c gives the same message as context a with question `b + "\n\nQuestion: " + c`. So without the context length the message does not determine its parts. |
| `QaApp.ChatRequestFor` | qa_app.py:87-103 | An absent or empty API key gives status 500 with the configuration message. Otherwise the request holds exactly two messages: the system instruction, then the user message for this context and question. The context and the question both appear verbatim in the user message. |
| `QaApp.MessagesFeed.Fetch` | qa_app.py:62-70 | Each fetch is counted. A feed error becomes status 502 with detail "Upstream messages API error: " followed by the error text. Otherwise the fetch returns the parsed JSON. |
| `QaApp.Ask` | qa_app.py:112-121 | A rejected question gives 400 and leaves the feed untouched, meaning no fetch. An accepted one fetches once. A feed error then gives 502. Otherwise the result is the model request for the stripped question and `ContextOf(data)`. |

## Left out

- The HTTP request to the feed. `MessagesFeed` stands in for it with a fixed response (the
  parsed JSON, or the text of an HTTP error). The feed URL, the 30-second timeout and the
  redirect following are not modelled.
- The model call, reading its reply and stripping that reply. `Ask` returns the request that
  would be sent. The generation settings are not modelled either: the model name is read as a
  plain environment string, and the temperature and token limit are environment strings parsed
  as numbers.
- Loading the environment from the `.env` file and the start-up log line. The environment
  values reach the model as `Option<string>` parameters.
- The web framework glue: the app object, the `/health` and `/` endpoints and the request and
  response classes. The request class makes `question` a required string, so a JSON null is
  refused with 422 before the handler runs. `ValidateQuestion` follows the handler's own
  `or ""` and treats an absent question like an empty one.
- Starting the server.
- Feed values of other shapes. The model takes the feed's top-level value to be an object, each
  field to be a string or absent, and `items` to be a list of objects or absent. `MessagesJson`
  and `MessagesFeed` cannot express the following, which the source handles as shown:
  - A field that is present but JSON `null` renders as `None`. A non-string field renders as
    its `str()`.
  - An `items` key holding `null` raises a TypeError in the loop (qa_app.py:77).
  - An `items` element that is not an object raises an AttributeError at `it.get`
    (qa_app.py:78).
  - A top-level value that is not an object raises an AttributeError at `messages_json.get`
    (qa_app.py:75).
  - A response body that is not valid JSON raises at `resp.json()` (qa_app.py:68). That
    exception is not an `httpx.HTTPError`, so the request fails with status 500, not 502.
- `Strings.IsSpace` follows CPython's `str.isspace` table for current Unicode versions. Other
  versions of that table are not modelled.

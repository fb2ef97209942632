# Archeologist agent: session state, artifact list and front-end stores

This project models the stateful core of the "Archeologist Agent" demo in
Dafny and proves properties of it. The demo has two front ends.

The Streamlit page (`app.py`) keeps a list of artifact records in its session
state. Three buttons toggle a predefined artifact in and out of the list:
pressing a button drops every dict entry with the artifact's name, or, when
there is none, appends a copy stamped with `discovered_date`. Every toggle is
persisted. The page lists the entries as cards, with fallbacks for missing
fields and HTML escaping. A question form hands a stripped, non-blank question
to the agent through a one-shot `should_run_agent` flag.

The React front end keeps a chat store and an authentication store (zustand
stores whose actions each replace the fields they name). Its registration page
validates the form and then updates the authentication store step by step.

Modules:

- `Json` (json.dfy): the JSON values held in the list. It also has Python's
  truth value, `dict.get` and `or`.
- `PyStrings` (py_strings.dfy): `strip`, `rstrip`, `rstrip('.')`,
  `html.escape` with its inverse, `replace("\n", "<br>")`, and `str()` of an
  index.
- `ArtifactList` (artifact_list.dfy): the toggle as a function on the list,
  with its lemmas.
- `ArtifactCards` (artifact_cards.dfy): the card fields of one entry.
- `StreamlitApp` (streamlit_app.dfy): the `Session` class (the session
  state), the `ToggleCallback` class (the closure `make_toggle` returns), the
  listing loop and the form handling.
- `Chat`, `Auth`, `Register` (chat_store.dfy, auth_store.dfy,
  register_page.dfy): the two stores, `localStorage`, and the registration
  page.

The toggle persists the list itself (`app.py:39`), and only dict entries are
matched by name (`app.py:31`).

A card either shows or stops the page with an exception.
`ArtifactCards.Renderable` is the condition for showing (`app.py:408-421`):
`details` must have a `.get` method, and every value handed to
`html.escape`, `rstrip()` or `rstrip('.')` must be text. Python's truth value
(`Json.Truthy`) counts empty strings, empty dicts and None as false, as the
`or` chains and the `if location` / `if summary` tests read it.

One consequence of the code is proved, not assumed: `agent_request` only ever
holds a stripped, non-empty question, so the form path never reaches the
"Please enter a question before sending." branch of `run_agent_callback`. A
blank send changes nothing at all (`StreamlitApp.Session.HandleSubmission`).

## Model

| member | source | states |
|---|---|---|
| `Json.Or` | app.py:409 | Python's `a or b`: `a` when it is true, `b` otherwise; so it is true exactly when one of the two is |
| `PyStrings.RStrip` | app.py:419 | `rstrip()` returns a prefix that does not end in whitespace, and only whitespace is cut off |
| `PyStrings.Strip` | app.py:449 | `strip()` is empty exactly when the text is all whitespace; otherwise it starts and ends with non-whitespace |
| `PyStrings.StripIsSlice` | app.py:449 | `strip()` is a contiguous slice of the text, with only whitespace before and after it |
| `PyStrings.StripIdempotent` | app.py:69 | a question that is already stripped is unchanged by a second `strip()` |
| `PyStrings.RStripChar` | app.py:419 | `rstrip('.')` returns a prefix that does not end in a dot, and only dots are cut off |
| `PyStrings.Escape` | app.py:414-421 | `html.escape` output has no `<`, `>`, `"` or `'`; it has a newline exactly when the input has one |
| `PyStrings.UnescapeEscape` | app.py:414 | escaping loses nothing: unescaping the escaped text gives the original back |
| `PyStrings.BreakLines` | app.py:421 | `replace("\n", "<br>")` leaves no newline |
| `PyStrings.BreakLinesChar` | app.py:421 | a newline becomes `<br>`; every other character is kept |
| `PyStrings.BreakLinesAppend` | app.py:421 | the replacement of a concatenation is the concatenation of the replacements, so every character stays in place |
| `PyStrings.BreakLinesKeeps` | app.py:421 | text without a newline passes through `replace` unchanged |
| `PyStrings.Decimal` | app.py:414 | `str(idx)` is a non-empty string of digits with no leading zero |
| `PyStrings.DecimalValueOfDecimal` | app.py:414 | reading the decimal text of a number back gives the number |
| `ArtifactList.WithoutNamed` | app.py:33 | the filtered list has no dict entry with the name; an entry is in it exactly when it was in the list and is not such a dict |
| `ArtifactList.WithoutNamedAppend` | app.py:33 | the filter distributes over concatenation, so the kept entries stay in their original order |
| `ArtifactList.WithoutNamedKeeps` | app.py:33 | with no dict entry of that name, the filter returns the list unchanged |
| `ArtifactList.CountNamed` | app.py:31 | the number of matching dict entries is zero exactly when `any(...)` is false |
| `ArtifactList.WithoutNamedLength` | app.py:33 | the filter removes exactly one entry per matching dict |
| `ArtifactList.StampedFields` | app.py:36-37 | the stamped copy adds only `discovered_date` with the timestamp and keeps every other field |
| `ArtifactList.Toggled` | app.py:31-38 | a toggle flips membership: afterwards a dict entry has the name exactly when none had it before |
| `ArtifactList.ToggleRemovesAll` | app.py:31-33 | removal drops every dict with that name, even several; the list shrinks by their number; all other entries stay, non-dicts included |
| `ArtifactList.ToggleAppends` | app.py:35-38 | adding grows the list by one; the earlier entries are unchanged; the last entry is the artifact plus `discovered_date` |
| `ArtifactList.ToggleTwice` | app.py:31-38 | from a list without the name, two toggles give the original list back, whatever the timestamps |
| `ArtifactList.ToggleDropsBothDuplicates` | app.py:31-33 | two "A" entries and a third artifact named "A": one toggle drops both and adds nothing |
| `ArtifactCards.DetailsOf` | app.py:408-409 | `artifact.get('details') or {}` is `{}` for a false value and the dict itself for a true dict; `.get` on it raises exactly when it is a true value that is not a dict |
| `ArtifactCards.DescriptionOf` | app.py:409 | the description is always a true value, and is one of the details' description, the entry's description or the fixed text |
| `ArtifactCards.DescriptionFallback` | app.py:409 | the fallback order: the details' description, else the entry's, else "No description provided."; empty strings count as missing |
| `ArtifactCards.Summarized` | app.py:419 | the text ends in `...`; before it is a prefix of the summary's `rstrip()` that does not end in a dot, with only dots cut off that `rstrip()`; this fixes the result |
| `ArtifactCards.SummarizedKeepsText` | app.py:419 | a summary that ends in neither a dot nor whitespace keeps all its text before the `...` |
| `ArtifactCards.CardFor` | app.py:401-421 | non-dict entries are skipped; the card raises exactly when the details value has no `.get` or a value that must be text is not |
| `ArtifactCards.ShownCardEscaped` | app.py:414-421 | a shown card's title, date, location and summary carry no markup character; its description carries no raw newline |
| `ArtifactCards.CardMetadata` | app.py:412-423 | the metadata block is shown exactly when `artifact.get('metadata', {})` is a true value, and it is that value |
| `ArtifactCards.CardReadsBack` | app.py:406-415 | unescaped, a card's title is the number, ". ", and the name or "Unnamed Artifact"; its date is the stored one or "Date unknown" |
| `ArtifactCards.CardLocationReadsBack` | app.py:408-416 | the location is shown exactly when the details give a true value for it, and unescaped it is that value |
| `ArtifactCards.CardSummaryReadsBack` | app.py:408-420 | the summary is shown exactly when the details give a true value for it, and unescaped it is the summary with its ellipsis |
| `ArtifactCards.CardDescription` | app.py:409-421 | a description free of newlines and of the characters `html.escape` rewrites is shown exactly as written; any other is shown escaped, with line breaks |
| `ArtifactCards.EscapePlain` | app.py:421 | text with no character `html.escape` rewrites passes through it unchanged |
| `ArtifactCards.TitlesDistinctByPosition` | app.py:401-414 | cards at two different list positions never share a title, whatever their names |
| `ArtifactCards.NumberedPrefix` | app.py:414 | the number before the first ". " of a title determines the position |
| `StreamlitApp.RenderRepository` | app.py:394-443 | an empty list shows the notice; otherwise one row per entry in order, numbered from 1, up to the first entry whose card raises |
| `StreamlitApp.NonDictEntriesSkipped` | app.py:402-404 | a non-dict entry that the loop reaches becomes a skipped warning with its position |
| `StreamlitApp.Session.constructor` | app.py:320-321 | a new session has no key set: no list, no request, no output, flag down, nothing persisted |
| `StreamlitApp.Session.InitStringList` | app.py:320-321 | the list is loaded only when the key is absent, so re-running init is a no-op |
| `StreamlitApp.Session.RunAgentCallback` | app.py:67-73 | a blank question gets the fixed reply and no run; any other question clears the output and runs the agent once |
| `StreamlitApp.Session.HandleSubmission` | app.py:448-459 | a non-blank send stores the stripped question and runs the agent once, with the flag already lowered; a blank send changes nothing |
| `StreamlitApp.Session.RunPage` | app.py:320-459 | init, listing, then form; when a card raises, the form is never handled |
| `StreamlitApp.ToggleCallback.constructor` | app.py:25-27 | the callback captures the artifact as a constant, so no toggle ever changes it |
| `StreamlitApp.ToggleCallback.Toggle` | app.py:27-39 | with the list present, it becomes its toggle and is persisted; with the key absent, the append raises and nothing changes |
| `Chat.ChatStore.constructor` | frontend/src/store/chat.js:4-7 | the initial state is no messages, no artifacts, not loading, no error |
| `Chat.ChatStore.AddMessage` | frontend/src/store/chat.js:9-16 | exactly one message with the given role, content and time is added at the end; nothing else changes |
| `Chat.ChatStore.SetMessages` | frontend/src/store/chat.js:18 | replaces the messages only |
| `Chat.ChatStore.SetArtifacts` | frontend/src/store/chat.js:19 | replaces the artifacts only |
| `Chat.ChatStore.SetLoading` | frontend/src/store/chat.js:20 | replaces the loading flag only |
| `Chat.ChatStore.SetError` | frontend/src/store/chat.js:21 | replaces the error only |
| `Chat.ChatStore.ClearChat` | frontend/src/store/chat.js:23-26 | empties the messages and clears the error; artifacts and loading stay |
| `Chat.ChatStore.ClearError` | frontend/src/store/chat.js:28 | clears the error only |
| `Auth.LocalStorage.GetItem` | frontend/src/store/auth.js:5 | `getItem` returns the stored value, or null when the key is absent |
| `Auth.AuthStore.constructor` | frontend/src/store/auth.js:4-7 | the initial token is the stored `auth_token`, or null; no user, not loading, no error |
| `Auth.AuthStore.SetUser` | frontend/src/store/auth.js:9 | replaces the user only |
| `Auth.AuthStore.SetToken` | frontend/src/store/auth.js:10-17 | a truthy token is stored under `auth_token`, any other removes that key; the token becomes the argument; nothing else changes |
| `Auth.AuthStore.SetLoading` | frontend/src/store/auth.js:18 | replaces the loading flag only |
| `Auth.AuthStore.SetError` | frontend/src/store/auth.js:19 | replaces the error only |
| `Auth.AuthStore.Logout` | frontend/src/store/auth.js:21-25 | user, token and error become null; loading and storage are untouched |
| `Auth.AuthStore.ClearError` | frontend/src/store/auth.js:27 | clears the error only |
| `Auth.TokenSurvivesLogout` | frontend/src/store/auth.js:5-25 | after storing a token and logging out, a fresh store from the same storage has that token again |
| `Register.WithField` | frontend/src/pages/Register.jsx:14 | the named field takes the new value; the other two keep theirs |
| `Register.Validate` | frontend/src/pages/Register.jsx:23-31 | a mismatch is reported first, then a password under 8 characters; the form passes exactly when both agree and have at least 8 |
| `Register.ValidateBoundary` | frontend/src/pages/Register.jsx:23-31 | 7 matching characters are refused; 8 pass; a short mismatched pair reports the mismatch |
| `Register.FailureText` | frontend/src/pages/Register.jsx:43 | the error is the server's non-empty detail, else "Registration failed" |
| `Register.RegisterPage.constructor` | frontend/src/pages/Register.jsx:9-10 | the form starts empty with no form error |
| `Register.RegisterPage.HandleChange` | frontend/src/pages/Register.jsx:12-16 | only the named field changes, and the form error is cleared |
| `Register.RegisterPage.HandleSubmit` | frontend/src/pages/Register.jsx:18-47 | both errors are cleared first; a failing form gets its message with no loading and no call; a valid one makes one call while loading and stores token and user or the error; loading ends false |

## Left out

- `tools.py` is not part of this model. This covers `load_persisted_list`, `persist_list` and `PREDEFINED_ARTIFACTS`. The loaded list is a parameter and is taken to be a list. So the `isinstance(lst, list)` guard (`app.py:29-30`) never applies, and `persist_list` is a ghost "last persisted" field.
- The legacy upgrade and the JSON round trip of the store file belong to `tools.py`, so they are not modelled.
- `run_agent` is not part of this model. `app.py` imports it from `agent.py`, but `agent.py` does not define it. Each agent call is recorded in a ghost log. Whatever the run itself writes to `agent_output` is not modelled.
- `get_artifact_details` and `get_weather` (`agent.py:9-28`) are not modelled. They are a file read and a canned string handed to the agent SDK.
- `datetime.now()` (`app.py:37`) and `new Date().toISOString()` (`chat.js:14`) are clock reads. Both are taken as parameters holding the already formatted text.
- Streamlit widgets, CSS, the "How To Use" panel (`app.py:323-352`) and the `BorderedOutputProxy` HTML wrapper (`app.py:43-64`) are presentation, so they are left out. So is the text of the skip warning.
- `json.dumps` of the metadata (`app.py:424`) is a library call. A card keeps the metadata value instead of its pretty-printed text.
- Python exceptions are modelled only as "the page stops here". Their type and message are not modelled.
- `ArtifactCards.PyStr`: the `str()` of a non-empty dict used as a name is a placeholder, not Python's repr. Numbers, booleans and arrays are kept as the text `str()` gives them.
- `ArtifactList.Named`: names are compared by structural equality of values. Python's `1 == 1.0 == True` across numeric types is not modelled.
- `StreamlitApp.ToggleCallback.Toggle`: requires the artifact to have a `name` key. In the source, an artifact without one raises `KeyError`, but only when the list holds a dict entry. At the only call site the button label reads `art['name']` before `make_toggle(art)` is called (`app.py:388`), so every artifact that reaches the callback has a name.
- `StreamlitApp.ToggleCallback.Toggle`: the in-place `append` of `app.py:38` is a reassignment of a sequence value. Aliasing of the list object is not captured.
- The `agent_form` text input always holds a string, so a `None` question is not modelled.
- React's asynchronous state updates and re-rendering are not modelled. `handleSubmit` reads the form as it stands when called. `navigate('/chat')` is a ghost log of targets.
- The disabled "Sign Up" button and the error display are rendering, so they are left out.
- `Register.FailureText`: an error `detail` that is not a string is not modelled; FastAPI validation errors send a list. The user id from the response is kept as an arbitrary JSON value.
- JavaScript truthiness of a token is modelled as "present and non-empty". `undefined` is identified with `null`. Password length is the length of the character sequence, not UTF-16 code units.
- `Chat.jsx`, `Login.jsx`, `ArtifactPanel.jsx`, `MessageBubble.jsx`, `App.jsx`, `lib/api.js` and `tailwind.config.js` are left out. They are rendering, routing, network calls and styling.

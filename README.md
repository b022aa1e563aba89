# Cold Email Generator — a verified model of its decision logic

The Cold Email Generator is a Streamlit page. It fetches a careers page,
asks a Groq-hosted chat model (through LangChain) to extract the job
postings as JSON, and then has the model write a cold email for each job.
This project models the deterministic logic around those calls and proves
properties of it:

- **Skills** — `normalize_skills`: a string of skills is split on commas,
  a list is stringified element by element, and the pieces are trimmed with
  blank ones dropped; any other value becomes a one-element list.
- **Layout** — `_estimate_iframe_height_for`: the height of the email box.
  Each line of the email wraps at 90 characters on a desktop and at 38 on a
  phone. The larger pixel estimate, plus a buffer, is clamped to
  [380, 4000]. This is a method with a loop, proved against a specification
  function.
- **UrlGate** — the input must be non-empty once trimmed and match
  `^https?://` ignoring case.
- **Jobs** — reading `role`/`description`/`experience`/`skills` with their
  defaults, and merging the chosen tone and call-to-action into the job.
- **Alerts** — choosing between the rate-limit notice and the generic error
  message.
- **Secrets** — `_get_secret`: the host secret store wins when it gives a
  non-empty value, and otherwise the environment is used.
- **Chains** — `Chain()`: the missing-key check and the one retry with the
  other keyword. `extract_jobs`: the parse-failure path and wrapping a
  non-list result in a list. `write_mail`: unwrapping the reply.

Supporting modules: **Text** models Python's `str.strip`, `str.split`,
`str.lower` and `in`. **Json** models the parsed JSON values, with dicts as
insertion-ordered member lists. **Wrappers** and **Exceptions** hold
`Option`/`Result` and the Python exceptions involved.

Foreign code is passed in as function parameters:

- the chat model's reply (`invoke`)
- the outcome of each `ChatGroq(...)` constructor call (`connect`)
- the JSON output parser (`parse`)
- the host secret store (`Host.Store`)
- the process environment (`env`)
- Python's `str()` of a list or dict (`showContainer`)

## Model

| member | source | states |
|---|---|---|
| Text.Strip | main.py:168 | `str.strip()` leaves no whitespace (Python's `isspace` set) at either end, and the result is empty exactly when the input is all whitespace |
| Text.StripBySlice | main.py:168 | the stripped string is a contiguous slice of the input, with only stripped characters before and after it |
| Text.StripKeepsOut | main.py:168 | stripping never introduces a character the input did not contain |
| Text.StripTrimmed | main.py:301 | `str.strip()` leaves a string with no whitespace at either end unchanged |
| Text.Split | main.py:168 | `str.split(sep)` returns at least one piece, and no piece contains the separator |
| Text.JoinSplit | main.py:168 | joining the pieces of `split(sep)` with `sep` gives back the original string |
| Text.SplitJoin | main.py:168 | splitting a join of separator-free pieces gives back exactly those pieces, so the split is the unique such decomposition |
| Text.LowerChar | main.py:359 | lowering maps every ASCII capital to its small letter and leaves every other character unchanged |
| Text.ContainsIff | main.py:360 | the substring test `t in s` holds exactly when `t` occurs at some index of `s` |
| Json.Get | main.py:317-320 | `d.get(key)` finds a value exactly when the key is present, and that value is stored under the key |
| Json.Put | main.py:340 | setting an existing key keeps the key order, a new key is appended last, and the keys stay unique |
| Json.PutGet | main.py:340 | after `d[key] = v`, `key` maps to `v` and every other key maps to what it did before |
| Json.Digits | main.py:170-171 | the decimal numeral Python writes for a non-negative integer: only digits, no leading zero unless it is `0`, and it reads back (`DecimalValue`) as the number |
| Json.ToStr | main.py:170-171 | `str()` of a parsed value: `None` gives "None", booleans give "True"/"False", an integer gives its numeral with a leading "-" when negative, a string gives itself, and a list or dict gives what `showContainer` says |
| Skills.StripAll | main.py:168-170 | each element is stripped, and the length is unchanged |
| Skills.NonEmpty | main.py:168-170 | the filter keeps only non-empty entries and never grows the list |
| Skills.NonEmptyFrom | main.py:168-170 | every entry the filter keeps is an entry of its input |
| Skills.NonEmptyInOrder | main.py:168-170 | the filter keeps every non-empty entry, in the original order, and nothing else: the entry preceded by c non-empty entries is output c |
| Skills.InOrderExtend | main.py:168-170 | the induction step of the ordering proof: existing entries keep their rank when one entry is appended |
| Skills.KeepNonBlank | main.py:168-170 | the comprehension's elements are non-empty and trimmed, and there are no more of them than inputs |
| Skills.KeepNonBlankSelects | main.py:168-170 | the comprehension returns exactly the stripped non-blank inputs, in order |
| Skills.KeepNonBlankAvoids | main.py:168 | inputs free of a character give outputs free of it |
| Skills.NormalizeSkills | main.py:166-171 | any other value gives exactly `[str(raw)]`; for a string or a list every element is non-empty and trimmed; for a string no element contains a comma; for a list the output is no longer than the input |
| Skills.StrSkillsArePieces | main.py:167-168 | a skills string gives its comma-separated pieces (which join back to it), stripped, blank pieces dropped, in order |
| Skills.ListSkillsSelected | main.py:169-170 | a skills list gives the `str()` of its non-blank elements, stripped, in order |
| Layout.CeilDiv | main.py:207-208 | `math.ceil(a / b)` is the least q with q·b ≥ a |
| Layout.LineCost | main.py:206-208 | every line, empty ones included, costs at least one screen line |
| Layout.Rows | main.py:205 | `splitlines() or [""]` always has at least one line, and leaves a non-empty split unchanged |
| Layout.Clamp | main.py:215 | the clamp lands in [380, 4000] and leaves values already in range unchanged |
| Layout.FrameHeight | main.py:199-215 | the specified estimate always lies in [380, 4000] |
| Layout.EstimateIframeHeight | main.py:199-215 | the loop with its two accumulators computes `FrameHeight` of the lines, which lies between `EMAIL_BOX_DESKTOP_HEIGHT + 80` and 4000 |
| Layout.WrappedLinesAtLeastCount | main.py:205-208 | the screen-line count is at least the number of text lines |
| Layout.MobileLineCostAtLeastDesktop | main.py:201-208 | a line never takes fewer screen lines at 38 characters than at 90 |
| Layout.MobileWrapsMore | main.py:201-208 | `lines_m >= lines_d` for every text |
| Layout.MobileDominates | main.py:209-215 | the mobile estimate always wins the `max`, so the height is the clamp of 200 + 26 × mobile lines |
| Layout.EmptyTextHeight | main.py:205-215 | text with no lines gets the minimum height 380 |
| Layout.HeightByMobileLines | main.py:209-215 | up to 6 mobile lines give 380, 7 to 146 lines give 200 + 26 per line, and 147 or more give 4000 |
| Layout.ExtraLineNeverShrinks | main.py:205-215 | appending a line never lowers the height |
| UrlGate.Fold | main.py:146 | case-insensitive matching changes only ASCII capitals and U+017F, and every character it produces outside a–z is the character itself |
| UrlGate.MatchSchemeIff | main.py:146 | the regular expression `^https?://` with `IGNORECASE` matches exactly the strings whose folded form starts with `http://` or `https://` |
| UrlGate.CheckUrl | main.py:301 | a URL is accepted exactly when its trimmed form starts with `http://` or `https://` ignoring case, and the accepted URL is the trimmed, non-empty input |
| UrlGate.AnyCaseSchemeAccepted | main.py:301 | a URL without surrounding whitespace whose scheme spells `http://` or `https://` in any mix of small and capital letters passes the gate unchanged |
| Jobs.GetOr | main.py:317-319 | `d.get(key, default)` returns the stored value when the key is present, and otherwise the default |
| Jobs.ReadJob | main.py:317-320 | a non-dict job raises `AttributeError` with Python's message; otherwise a missing role/description/experience reads as "Software Engineer"/""/"N/A", present ones read as stored, missing skills read as no skills, and the skills shown are always `normalize_skills` of what `job.get("skills", [])` returns |
| Jobs.SkillsInput | main.py:320 | `job.get("skills", [])` as `normalize_skills` receives it: a missing key is the empty list, a string stays that string, a list becomes the `str()` of each of its elements in order, and any other value is passed as its `str()` |
| Jobs.StringSkillsShown | main.py:167-168 | a job whose skills are a string shows exactly that string's comma-separated pieces, stripped, blank ones dropped, in order, and no shown skill contains a comma |
| Jobs.WithPrefs | main.py:340 | the merged record keeps the job's keys in order, appends `tone` and `cta` when they are new, and keeps keys unique |
| Jobs.WithPrefsGet | main.py:340 | in the merged record `tone` and `cta` hold the choices, and every other key holds what the job held |
| Jobs.WithPrefsKeepsView | main.py:317-340 | merging the choices does not change the role, description, experience or skills read from the job |
| Jobs.WithPrefsLastWins | main.py:340 | merging twice is the same as merging only the last choices |
| Alerts.AlertText | main.py:358-366 | the rate-limit notice is shown exactly when the lower-cased message contains "rate limit" or "429", and otherwise the generic prefix followed by the message |
| Alerts.RateLimitAnyCase | main.py:359-360 | "rate limit" in any mix of cases, anywhere in the message, is detected |
| Alerts.StatusCodeDetected | main.py:359-360 | "429" anywhere in the message is detected |
| Secrets.Getenv | chains.py:27 | `os.getenv` returns a value exactly when the variable is set, and that value is the variable's |
| Secrets.SecretFor | chains.py:19-27 | a truthy store value wins; no store, a lookup that raises, or an empty/`None` store value falls through to the environment; a usable secret exists exactly when one of the two holds a non-empty value |
| Secrets.GetSecret | chains.py:19-27 | the guarded lookup that reassigns `val` returns exactly `SecretFor` |
| Chains.ParserInputOf | chains.py:55 | `getattr(res, "content", res)` passes the content when the reply has one, and otherwise the reply itself |
| Chains.UnwrapReply | chains.py:72 | `getattr(res, "content", str(res))` returns the content when present, and otherwise `str(res)` |
| Chains.Chain.ExtractJobs | chains.py:43-58 | a model error propagates; a parser `OutputParserException` becomes one carrying "Context too big or malformed model output." and no value is returned; other parser errors propagate; a parsed list is returned as is, and any other parsed value as a one-element list |
| Chains.NoJobsOnlyFromEmptyList | chains.py:58 | extraction yields no jobs exactly when the model answered and its JSON parsed to an empty list |
| Chains.Chain.WriteMail | chains.py:60-72 | the model gets the job as its `str()` and the links unchanged; a model error propagates; otherwise the reply's content is returned when present, and `str(reply)` when not |
| Chains.NewChain | chains.py:30-41 | without a truthy `GROQ_API_KEY`, construction fails with the `ValueError` message and no `ChatGroq` call is made; otherwise the first call uses `api_key=` with model "llama-3.3-70b-versatile" at temperature 0, and a second call with `groq_api_key=` is made exactly when the first raised `TypeError`; the chain holds the last call when it succeeded, and otherwise construction fails with that call's error |

## Left out

- Streamlit rendering is not modelled: page config, CSS, hero, sidebar choices and presets, skill chips, badges, the HTML/JS copy box, download buttons and toasts (main.py:17-143, 173-178, 217-297, 322-356). It is user interface.
- `fetch_and_clean` is not modelled: it is network I/O through `WebBaseLoader`, and `utils.clean_text` is not part of this model.
- `to_plain_text` is not modelled: it is a chain of regular-expression substitutions with non-greedy, multi-line and dot-all semantics.
- `download_name` is not modelled: it reads the wall clock.
- `Portfolio` loading is not modelled: `portfolio.py` is not part of this model.
- Foreign libraries are not modelled: `ChatGroq`, `PromptTemplate` and `JsonOutputParser` are only the `connect`, `invoke` and `parse` parameters. A prompt is modelled by the variables it is filled with, not by its template text.
- The rest of the generate flow is not modelled as one operation. That includes the `for` loop over the jobs, the per-session caching of `Chain()` (main.py:21-22) and which steps sit inside the `try`. Its pieces are modelled one by one.
- There is no multi-model fallback and no rate-limit retry or backoff: chains.py builds a single `ChatGroq` model.
- Layout.EstimateIframeHeight: takes the result of `text.splitlines()` as its input; Python's line-boundary rules are not modelled.
- Layout.CeilDiv: is exact integer ceiling division; `math.ceil(L / wrap)` on floats agrees with it for any string length below 2^53.
- Text.LowerChar: lowers ASCII capitals only. Python's full Unicode lowering cannot change the classification. The only non-ASCII characters that lower into ASCII are U+212A (to "k", which neither phrase contains) and U+0130 (to "i" followed by U+0307, and in "rate limit" every "i" is followed by "m" or "t").
- Json.ToStr: renders `None`, booleans, integers and strings as Python does. Lists and dicts are rendered by the `showContainer` parameter. `str(job)` therefore depends on it, and so do list-valued skills with nested containers. Floating-point JSON numbers are not modelled.
- Secrets.SecretFor: store values are strings or `None`. A non-string value returned by `st.secrets.get` is not modelled.
- Rendering `escape(role)` and `escape(str(exp))` is not modelled: a non-string role would raise inside the `try` and show the generic error.
- Chains.Chain.ExtractJobs: the message of the re-raised `OutputParserException` is the one passed to it. Some LangChain versions append a troubleshooting link to `str(e)`.
- Json.Get: returns the first member stored under a key, while `json.loads` keeps the last of duplicate keys. The two agree on the records the parser returns, which are dicts and so have unique keys; the `parse` parameter is taken to return such records (`UniqueKeys`).

# bio_generator: the `/generate-bio` pipeline in Dafny

The service takes a JSON object with `name`, `age`, `gender`, `interests` and
`profession` and fills them into a fixed prompt template. It has GPT-2 continue the
prompt, cuts the decoded text down to a few '.'-separated segments, and returns it
as `{"bio": ...}`. This project models the handler `generate_bio` of `app.py` as
total functions over strings and sequences:

- `pystr.dfy` (module `PyStr`) defines the Python primitives the handler uses, as
  CPython behaves:
  - `str.split` with a one-character separator. A string with k separators gives
    k + 1 segments, empty ones included.
  - `sep.join`.
  - the slice `xs[:n]`, which tolerates a bound past the end.
  - `str.count` and `str.replace` as reference definitions.

  It then proves the round trips between split and join, and what a join with
  ". " looks like when split on '.' again.
- `app.dfy` (module `App`) models the handler itself:
  - The request body: an object (a map from key to JSON value) or anything else,
    with Python truthiness.
  - How the f-string renders each value. A Python int goes through `str()`; that
    text holds no '.', and reading it back gives the number.
  - The prompt template.
  - The truncation `". ".join(decoded.split(".")[:len(prompt.split(".")) + 1])`.
  - The handler `Handle`. A falsy body gives `BadRequest("No input data provided")`,
    which is status 400. Any later exception gives a status-500 `ServerError`: a
    non-object body, a missing template key (the first one the f-string reaches) or
    failed generation. Otherwise the result is `Ok(bio)`.

The language model is a parameter, `generate: string -> Option<string>`. It maps the
prompt to the decoded text, and `None` stands for an exception in tokenizing,
generating or decoding. The decoded output of a causal language model usually begins
with the prompt itself. It does not when decoding changes the prompt's own text: a
field holding a special token such as `<|endoftext|>` is dropped by
`skip_special_tokens=True`, and a field ending in a space gives " ." in the prompt,
which the tokenizer's default clean-up of spaces before punctuation turns into ".".
`TruncateEchoedPrompt` shows what the service returns when the output does begin
with the prompt: the prompt's sentences already start with a space, so after
rejoining with ". " they are separated by a period and two spaces. After them come
". " and the first two '.'-segments of the continuation. The second segment is
usually a fragment without a final period.

Two things the code does not guarantee on its own:
- A bio is not always non-empty: it is empty exactly when the decoded text is empty
  (`Truncate`), and nothing in the handler rules that out.
- The number of '.'-segments of the bio is at most one more than the prompt's, and
  at most six when no rendered field contains '.'. A field such as a float age
  (`30.5`) adds segments to the prompt, and so raises the limit.

## Model

| member | source | states |
|---|---|---|
| `App.Handle` | app.py:11-43 | A falsy body yields exactly `BadRequest("No input data provided")`, and nothing else yields a `BadRequest`. A truthy non-object body yields `ServerError(NotSubscriptable)`. A truthy object that lacks a template key yields a `ServerError` naming a template key that is absent. The result is `Ok` iff the body is a non-empty object holding all five keys and generation succeeds, and then the bio is the truncation of the generated text against the prompt. |
| `App.Status` | app.py:13-43 | Success is status 200, the missing-input error is 400, and every other failure is 500. |
| `App.FirstMissing` | app.py:18-22 | Returns nothing iff every key is present. Otherwise it returns a key absent from the object that every earlier key precedes present, which is the lookup that raises `KeyError` first in the f-string's left-to-right order. |
| `App.IsFalsy` | app.py:14 | The empty object `{}` is falsy, and an object holding all five template keys is truthy, so a complete request is never refused with 400. |
| `App.Format` | app.py:19-21 | A string field is rendered as itself and `None` as "None". An int field is rendered without any '.' and reads back as the same number. |
| `App.IntToString` | app.py:19 | `str(i)` of a Python int holds no '.', and parsing it back gives `i`. |
| `App.Decimal` | app.py:19 | The decimal text of a natural number is non-empty and made only of digits. It has no leading zero, and its value is the number. |
| `App.BuildPrompt` | app.py:18-22 | The filled template equals its four sentences plus a final empty segment joined with '.'. |
| `App.PromptOf` | app.py:18-22 | When no field of the request renders with a '.' (for instance string fields without one and an int age), the prompt holds exactly four '.' and six segments of the generated text are kept. |
| `App.PromptSegments` | app.py:18-22 | With no '.' in any field, the prompt splits on '.' into exactly its four sentences and a final empty segment. It holds exactly four '.', and the kept-segment limit is 6. |
| `App.Limit` | app.py:39 | `len(prompt.split(".")) + 1` is the prompt's number of '.' plus two. |
| `App.Truncate` | app.py:38-39 | The bio split on '.' has min(k, N + 1) segments, where k is the generated text's segment count and N the prompt's. The first is the generated text's first segment, and each later one is " " followed by the matching generated segment. Every '.' in the bio is immediately followed by a space. When the generated text has at most N + 1 segments, nothing is dropped: the bio is the generated text with every '.' replaced by ". ". The bio is empty exactly when the generated text is. |
| `App.RejoinedSegments` | app.py:39 | Segments free of '.' joined with ". " and split on '.' again come back with a space in front of each but the first, and every '.' of the join is followed by a space. |
| `App.EchoSegments` | app.py:18-38 | Generated text that starts with a dot-free prompt splits into the prompt's four sentences followed by the segments of the continuation. |
| `App.TruncateEchoedPrompt` | app.py:18-39 | For generated text that starts with a dot-free prompt, the bio is the prompt's sentences separated by ".  " (period and two spaces), then ". ", then the first two segments of the continuation joined with ". ". |
| `App.HandleBioBound` | app.py:18-41 | A successful bio has at most N + 1 '.'-segments, and at most 6 when no rendered field contains '.'. |
| `PyStr.Split` | app.py:38 | `s.split(c)` has exactly `s.count(c) + 1` segments, so it is never empty, and no segment contains `c`. |
| `PyStr.Join` | app.py:39 | `sep.join(parts)` has the parts' total length plus one separator between each two neighbours. |
| `PyStr.Take` | app.py:39 | `xs[:n]` is the prefix of `xs` of length min(n, len(xs)), so a bound past the end keeps everything. |
| `PyStr.SplitWithoutSeparator` | app.py:38 | A string without the separator splits into itself alone. |
| `PyStr.SplitAround` | app.py:38 | Splitting `a + c + b` on `c` gives the segments of `a` followed by those of `b`. |
| `PyStr.SplitJoin` | app.py:38-39 | Splitting the join of separator-free parts returns the parts. |
| `PyStr.JoinSplit` | app.py:38-39 | Joining the segments of `s.split(c)` with `c` gives back `s`. |
| `PyStr.JoinSplitIsReplace` | app.py:38-39 | `sep.join(s.split(c))` equals `s.replace(c, sep)`. |
| `PyStr.JoinLongSeparator` | app.py:39 | Joining with `c + t` equals joining with `c` after putting `t` in front of every part but the first. |
| `PyStr.SplitLongSeparator` | app.py:39 | A join with `c + t` of `c`-free parts, split on `c`, gives the first part, then `t` followed by each later part. |
| `PyStr.JoinFollowedBy` | app.py:39 | In a join with the separator `c f` of `c`-free parts, every `c` is immediately followed by `f`. |
| `PyStr.JoinAppend` | app.py:39 | Joining a concatenation of two non-empty lists joins the halves with one more separator. |

## Left out

- The GPT-2 tokenizer and model (loading, `tokenizer(...)`, `model.generate(...)` as called with max length 100, temperature 0.8, top-p 0.9 and repetition penalty 2.0, and `tokenizer.decode(...)`). These are foreign library calls with floating-point arithmetic. The call does not set `do_sample`, so under the library's defaults decoding is greedy and deterministic and the temperature and top-p settings have no effect; which of these settings take effect depends on the library version. All of it is the parameter `generate`, whose exact output is not modelled.
- The Flask application: routing, `request.json` parsing, `jsonify`, the `/` page rendered from a template, and `app.run`. The model starts from the already parsed body. With some Flask versions a request that is not JSON at all raises inside `request.json`, and the blanket handler turns that into a 500 instead of a 400. That depends on the framework version and is not modelled.
- The text of exception messages in the 500 path. It depends on Python and the library, so `ServerError` carries the kind of failure instead.
- App.Format: floats, arrays and objects are `Rendered(text)`, with their Python text taken as given. Dict ordering, `repr` quoting and float formatting are not modelled.
- App.IntToString: Python's limit on converting ints of more than 4300 digits to text, which raises `ValueError`, is not modelled.
- The model and tokenizer are process-wide state shared read-only across requests. Concurrent request handling belongs to the framework and is not modelled.
- PyStr.Split: only separators of one character are modelled, which is the only kind the handler uses.
- PyStr.Take: only non-negative bounds are modelled. The handler's bound is always at least 2.

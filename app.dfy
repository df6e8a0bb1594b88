/** The `/generate-bio` request handler: the gate on an empty body, the prompt template,
    the sentence truncation of the generated text, and the mapping of every other
    failure to a server error. The language model is a parameter (`generate`), so the
    handler is a total function of the body and of what generation returns. */
module App {
  import opened PyStr

  datatype Option<T> = None | Some(value: T)

  /** A JSON value found under a key of the request object. `Rendered` stands for a
      float, an array or an object, whose Python text is carried as given. */
  datatype Value =
    | Null
    | Bool(b: bool)
    | Int(i: int)
    | Str(s: string)
    | Rendered(text: string)

  /** What the parsed request body is. `NotObject` is a missing body, JSON `null`, or a
      JSON array, string, number or boolean; for these only Python truthiness matters,
      because subscripting any of them with a string key raises. */
  datatype Body =
    | Object(fields: map<string, Value>)
    | NotObject(falsy: bool)

  /** The exception that ends a request after the body check. */
  datatype Failure =
    | MissingKey(key: string)   // KeyError: the first template key the object lacks
    | NotSubscriptable          // TypeError: the body is not a JSON object
    | GenerationFailed          // tokenizing, generating or decoding raised

  datatype Response =
    | Ok(bio: string)
    | BadRequest(message: string)
    | ServerError(cause: Failure)

  const NoInputMessage: string := "No input data provided"

  /** The keys the prompt template reads, in the order the f-string evaluates them. */
  const TemplateKeys: seq<string> := ["name", "age", "gender", "interests", "profession"]

  /** The HTTP status sent with a response. */
  function Status(r: Response): (code: int)
    ensures code == 200 <==> r.Ok?
    ensures code == 400 <==> r.BadRequest?
    ensures code == 500 <==> r.ServerError?
  {
    match r
    case Ok(_) => 200
    case BadRequest(_) => 400
    case ServerError(_) => 500
  }

  /** Python's `not data`: no body, JSON null, false, 0, "", [] and {} are all falsy. */
  predicate IsFalsy(body: Body)
    ensures body == Object(map[]) ==> IsFalsy(body)
    ensures body.Object? && HasTemplateKeys(body.fields) ==> !IsFalsy(body)
  {
    match body
    case Object(fields) => |fields| == 0
    case NotObject(falsy) => falsy
  }

  /** The character of a decimal digit. */
  function DigitChar(d: nat): char
    requires d < 10
  {
    ('0' as int + d) as char
  }

  /** The number a string of decimal digits denotes. */
  function DigitsValue(s: string): int
  {
    if s == [] then 0 else DigitsValue(s[..|s| - 1]) * 10 + (s[|s| - 1] as int - '0' as int)
  }

  /** `int(s)` for an optional minus sign followed by decimal digits. */
  function ParseInt(s: string): int
  {
    if |s| > 0 && s[0] == '-' then -DigitsValue(s[1..]) else DigitsValue(s)
  }

  /** The decimal digits of a natural number, without leading zeros. */
  function Decimal(n: nat): (r: string)
    ensures |r| >= 1 && forall k :: 0 <= k < |r| ==> '0' <= r[k] <= '9'
    ensures |r| > 1 ==> r[0] != '0'
    ensures DigitsValue(r) == n
  {
    if n < 10 then [DigitChar(n)]
    else
      var r := Decimal(n / 10) + [DigitChar(n % 10)];
      assert r[..|r| - 1] == Decimal(n / 10);
      r
  }

  /** `str(i)` for a Python int: a minus sign for negatives, then the digits. It never
      holds a '.', and reading it back gives `i`. */
  function IntToString(i: int): (r: string)
    ensures '.' !in r
    ensures ParseInt(r) == i
  {
    if i < 0 then
      var r := "-" + Decimal(-i);
      assert r[1..] == Decimal(-i);
      r
    else Decimal(i)
  }

  /** How the f-string renders a value: a string as itself, an int in decimal, and
      `None`, `True`, `False` by name. */
  function Format(v: Value): (r: string)
    ensures v.Str? ==> r == v.s
    ensures v.Int? ==> '.' !in r && ParseInt(r) == v.i
    ensures v.Null? ==> r == "None"
  {
    match v
    case Null => "None"
    case Bool(b) => if b then "True" else "False"
    case Int(i) => IntToString(i)
    case Str(s) => s
    case Rendered(text) => text
  }

  /** The prompt template, filled with the five rendered fields. It is its four sentences
      and a final empty segment, joined with '.'. */
  function BuildPrompt(name: string, age: string, gender: string, interests: string, profession: string): (r: string)
    ensures r == Join(".", PromptSentences(name, age, gender, interests, profession) + [""])
  {
    TemplateCutAtPeriods(name, age, gender, interests, profession);
    JoinFourTerminated("My name is " + name, " I am " + age + " years old",
                       " I am a " + gender + " interested in " + interests, " I work as a " + profession);
    "My name is " + name + ". I am " + age + " years old. "
    + "I am a " + gender + " interested in " + interests + ". "
    + "I work as a " + profession + "."
  }

  /** The first key of `keys` that `fields` lacks: the key whose lookup raises first. */
  function FirstMissing(fields: map<string, Value>, keys: seq<string>): (r: Option<string>)
    ensures r.None? <==> forall j :: 0 <= j < |keys| ==> keys[j] in fields
    ensures r.Some? ==> exists j :: 0 <= j < |keys| && keys[j] == r.value && r.value !in fields
                                  && forall i :: 0 <= i < j ==> keys[i] in fields
  {
    if keys == [] then None
    else if keys[0] !in fields then Some(keys[0])
    else
      FirstMissing(fields, keys[1..])
  }

  /** All five template keys are present. */
  predicate HasTemplateKeys(fields: map<string, Value>)
  {
    "name" in fields && "age" in fields && "gender" in fields
    && "interests" in fields && "profession" in fields
  }

  /** The prompt built from a request object that holds every template key. When no
      rendered field contains '.' (string fields without one, or an int age), the prompt
      holds exactly four '.' and six segments of the generated text are kept. */
  function PromptOf(fields: map<string, Value>): (r: string)
    requires HasTemplateKeys(fields)
    ensures '.' !in Format(fields["name"]) && '.' !in Format(fields["age"]) && '.' !in Format(fields["gender"])
            && '.' !in Format(fields["interests"]) && '.' !in Format(fields["profession"])
            ==> Count(r, '.') == 4 && Limit(r) == 6
  {
    var name, age, gender := Format(fields["name"]), Format(fields["age"]), Format(fields["gender"]);
    var interests, profession := Format(fields["interests"]), Format(fields["profession"]);
    if '.' !in name && '.' !in age && '.' !in gender && '.' !in interests && '.' !in profession then
      PromptSegments(name, age, gender, interests, profession);
      BuildPrompt(name, age, gender, interests, profession)
    else
      BuildPrompt(name, age, gender, interests, profession)
  }

  /** How many '.'-segments of the generated text are kept: one more than the prompt
      has, which is the prompt's number of '.' plus two, so always at least two. */
  function Limit(prompt: string): (n: nat)
    ensures n == Count(prompt, '.') + 2
  {
    |Split(prompt, '.')| + 1
  }

  /** Split the generated text on '.', keep the first `Limit(prompt)` segments and join
      them with ". ". Split on '.' again, the result has as many segments as the
      generated text, but at most `Limit(prompt)`; the first is the generated text's first
      segment and each later one is a space followed by the matching generated segment.
      Every '.' is followed by a space; when nothing is dropped the result is the
      generated text with each '.' replaced by ". "; and the result is empty exactly when
      the generated text is. */
  function Truncate(decoded: string, prompt: string): (r: string)
    ensures var d := Split(decoded, '.');
            var s := Split(r, '.');
            && |s| == (if |d| <= Limit(prompt) then |d| else Limit(prompt))
            && s[0] == d[0]
            && forall i :: 1 <= i < |s| ==> s[i] == " " + d[i]
    ensures FollowedBy(r, '.', ' ')
    ensures |Split(decoded, '.')| <= Limit(prompt) ==> r == Replace(decoded, '.', ". ")
    ensures r == "" <==> decoded == ""
  {
    var d := Split(decoded, '.');
    var kept := Take(d, Limit(prompt));
    assert forall i :: 0 <= i < |kept| ==> kept[i] == d[i];
    assert |d| <= Limit(prompt) ==> kept == d;
    RejoinedSegments(kept);
    JoinSplitIsReplace(decoded, '.', ". ");
    JoinSplit(decoded, '.');
    Join(". ", kept)
  }

  /** Segments free of '.' rejoined with ". ": split on '.' again they come back with a
      space in front of each but the first, and every '.' is followed by a space. */
  lemma RejoinedSegments(kept: seq<string>)
    requires |kept| >= 1
    requires forall i :: 0 <= i < |kept| ==> '.' !in kept[i]
    ensures Split(Join(". ", kept), '.') == [kept[0]] + Prefixed(" ", kept[1..])
    ensures FollowedBy(Join(". ", kept), '.', ' ')
  {
    assert ". " == ['.'] + " " == ['.', ' '];
    SplitLongSeparator(kept, '.', " ");
    JoinFollowedBy(kept, '.', ' ');
  }

  /** The handler. A falsy body is refused with the fixed message and status 400 before
      anything else happens; every later exception becomes a status-500 error; otherwise
      the truncated generation is the bio. */
  function Handle(body: Body, generate: string -> Option<string>): (r: Response)
    ensures IsFalsy(body) <==> r == BadRequest(NoInputMessage)
    ensures r.BadRequest? ==> IsFalsy(body)
    ensures !IsFalsy(body) && body.NotObject? ==> r == ServerError(NotSubscriptable)
    ensures !IsFalsy(body) && body.Object? && !HasTemplateKeys(body.fields) ==>
              r.ServerError? && r.cause.MissingKey? && r.cause.key in TemplateKeys
              && r.cause.key !in body.fields
    ensures r.Ok? <==> !IsFalsy(body) && body.Object? && HasTemplateKeys(body.fields)
                       && generate(PromptOf(body.fields)).Some?
    ensures r.Ok? ==> r.bio == Truncate(generate(PromptOf(body.fields)).value, PromptOf(body.fields))
  {
    if IsFalsy(body) then BadRequest(NoInputMessage)
    else
      match body
      case NotObject(_) => ServerError(NotSubscriptable)
      case Object(fields) =>
        match FirstMissing(fields, TemplateKeys)
        case Some(key) => ServerError(MissingKey(key))
        case None =>
          assert TemplateKeys[0] in fields && TemplateKeys[1] in fields && TemplateKeys[2] in fields
                 && TemplateKeys[3] in fields && TemplateKeys[4] in fields;
          var prompt := PromptOf(fields);
          match generate(prompt)
          case None => ServerError(GenerationFailed)
          case Some(decoded) => Ok(Truncate(decoded, prompt))
  }

  /** The four '.'-terminated pieces of the prompt before its final empty segment. */
  function PromptSentences(name: string, age: string, gender: string, interests: string, profession: string): seq<string>
  {
    ["My name is " + name, " I am " + age + " years old",
     " I am a " + gender + " interested in " + interests, " I work as a " + profession]
  }

  /** With no '.' in any field, the prompt holds exactly four '.', splits into its four
      sentences and a final empty segment, and so lets six segments through. */
  lemma PromptSegments(name: string, age: string, gender: string, interests: string, profession: string)
    requires '.' !in name && '.' !in age && '.' !in gender && '.' !in interests && '.' !in profession
    ensures Split(BuildPrompt(name, age, gender, interests, profession), '.')
            == PromptSentences(name, age, gender, interests, profession) + [""]
    ensures Count(BuildPrompt(name, age, gender, interests, profession), '.') == 4
    ensures Limit(BuildPrompt(name, age, gender, interests, profession)) == 6
  {
    var ps := PromptSentences(name, age, gender, interests, profession) + [""];
    SplitJoin(ps, '.');
  }

  /** The template's literal text, cut after each of its four '.'. This and the three
      lemmas after it only regroup text; they are split this way so that each step stays
      a small problem for the solver. */
  lemma TemplateCutAtPeriods(name: string, age: string, gender: string, interests: string, profession: string)
    ensures "My name is " + name + ". I am " + age + " years old. "
            + "I am a " + gender + " interested in " + interests + ". "
            + "I work as a " + profession + "."
            == ("My name is " + name) + "." + ((" I am " + age + " years old") + "."
               + ((" I am a " + gender + " interested in " + interests) + "." + ((" I work as a " + profession) + ".")))
  {
    TemplateLastCut(gender, interests, profession);
    TemplateMiddleCut(age, gender, interests, profession);
    TemplateFirstCut(name, age, gender, interests, profession);
  }

  /** The last '.' of the template, between the interests and the profession. */
  lemma TemplateLastCut(gender: string, interests: string, profession: string)
    ensures (" I am a " + gender + " interested in " + interests) + "." + ((" I work as a " + profession) + ".")
            == " I am a " + gender + " interested in " + interests + ". " + "I work as a " + profession + "."
  {
    SentenceBoundary(" I am a " + gender + " interested in " + interests, "I work as a " + profession + ".");
  }

  /** The '.' of the template after the age. */
  lemma TemplateMiddleCut(age: string, gender: string, interests: string, profession: string)
    ensures (" I am " + age + " years old") + "."
            + (" I am a " + gender + " interested in " + interests + ". " + "I work as a " + profession + ".")
            == " I am " + age + " years old. " + "I am a " + gender + " interested in " + interests + ". "
               + "I work as a " + profession + "."
  {
    SentenceBoundary(" I am " + age + " years old", "I am a " + gender + " interested in " + interests + ". "
                     + "I work as a " + profession + ".");
  }

  /** The '.' of the template after the name. */
  lemma TemplateFirstCut(name: string, age: string, gender: string, interests: string, profession: string)
    ensures ("My name is " + name) + "."
            + (" I am " + age + " years old. " + "I am a " + gender + " interested in " + interests + ". "
               + "I work as a " + profession + ".")
            == "My name is " + name + ". I am " + age + " years old. "
               + "I am a " + gender + " interested in " + interests + ". "
               + "I work as a " + profession + "."
  {
    SentenceBoundary("My name is " + name, "I am " + age + " years old. " + "I am a " + gender + " interested in "
                     + interests + ". " + "I work as a " + profession + ".");
  }

  /** A period and a space between two pieces of text. */
  lemma SentenceBoundary(x: string, y: string)
    ensures x + ". " + y == x + "." + (" " + y)
  {
    assert ". " == "." + " ";
  }

  /** Four parts and a final empty one, joined with '.', each end with a '.'. */
  lemma JoinFourTerminated(a: string, b: string, c: string, d: string)
    ensures Join(".", [a, b, c, d] + [""]) == a + "." + (b + "." + (c + "." + (d + ".")))
  {
    var ps := [a, b, c, d] + [""];
    assert ps[1..] == [b, c, d, ""] && ps[2..] == [c, d, ""] && ps[3..] == [d, ""];
    assert Join(".", ps[4..]) == "";
    assert Join(".", ps[3..]) == d + "." + "" == d + ".";
    assert Join(".", ps[2..]) == c + "." + Join(".", ps[3..]);
    assert Join(".", ps[1..]) == b + "." + Join(".", ps[2..]);
  }

  /** A causal language model's decoded output usually begins with the prompt. For such output
      (and fields free of '.') the bio is the prompt's four sentences, each already
      starting with a space and now rejoined with ". ", so separated by a period and two
      spaces, then ". " and the first two segments of the continuation. */
  lemma TruncateEchoedPrompt(name: string, age: string, gender: string, interests: string, profession: string,
                             continuation: string)
    requires '.' !in name && '.' !in age && '.' !in gender && '.' !in interests && '.' !in profession
    ensures var prompt := BuildPrompt(name, age, gender, interests, profession);
            Truncate(prompt + continuation, prompt)
            == "My name is " + name + ".  I am " + age + " years old.  I am a " + gender
               + " interested in " + interests + ".  I work as a " + profession + ". "
               + Join(". ", Take(Split(continuation, '.'), 2))
  {
    var prompt := BuildPrompt(name, age, gender, interests, profession);
    var sentences := PromptSentences(name, age, gender, interests, profession);
    var c := Split(continuation, '.');
    PromptSegments(name, age, gender, interests, profession);
    EchoSegments(name, age, gender, interests, profession, continuation);
    assert Take(sentences + c, 6) == sentences + Take(c, 2);
    JoinAppend(". ", sentences, Take(c, 2));
    JoinFour(". ", sentences[0], sentences[1], sentences[2], sentences[3]);
    assert sentences == [sentences[0], sentences[1], sentences[2], sentences[3]];
    EchoRegrouped(name, age, gender, interests, profession, Join(". ", Take(c, 2)));
  }

  /** Generated text that begins with the prompt splits into the prompt's four sentences
      followed by the segments of the continuation. */
  lemma EchoSegments(name: string, age: string, gender: string, interests: string, profession: string,
                     continuation: string)
    requires '.' !in name && '.' !in age && '.' !in gender && '.' !in interests && '.' !in profession
    ensures Split(BuildPrompt(name, age, gender, interests, profession) + continuation, '.')
            == PromptSentences(name, age, gender, interests, profession) + Split(continuation, '.')
  {
    var sentences := PromptSentences(name, age, gender, interests, profession);
    PromptSegments(name, age, gender, interests, profession);
    JoinAppend(".", sentences, [""]);
    assert BuildPrompt(name, age, gender, interests, profession) + continuation
           == Join(".", sentences) + ['.'] + continuation;
    SplitAround(Join(".", sentences), continuation, '.');
    assert sentences == (sentences + [""])[..4];
    SplitJoin(sentences, '.');
  }

  /** Four parts joined with a separator. */
  lemma JoinFour(sep: string, a: string, b: string, c: string, d: string)
    ensures Join(sep, [a, b, c, d]) == a + sep + (b + sep + (c + sep + d))
  {
    var ps := [a, b, c, d];
    assert ps[1..] == [b, c, d] && ps[2..] == [c, d] && ps[3..] == [d];
    assert Join(sep, ps[2..]) == c + sep + Join(sep, ps[3..]);
    assert Join(sep, ps[1..]) == b + sep + Join(sep, ps[2..]);
  }

  /** The prompt's sentences rejoined with ". ", then ". " and a tail, as one text. Like
      the template cuts, this and its three seams only regroup text, one seam per lemma
      to keep each step small for the solver. */
  lemma EchoRegrouped(name: string, age: string, gender: string, interests: string, profession: string, tail: string)
    ensures ("My name is " + name) + ". " + ((" I am " + age + " years old") + ". "
              + ((" I am a " + gender + " interested in " + interests) + ". " + (" I work as a " + profession)))
            + ". " + tail
            == "My name is " + name + ".  I am " + age + " years old.  I am a " + gender
               + " interested in " + interests + ".  I work as a " + profession + ". " + tail
  {
    EchoLastSeam(gender, interests, profession);
    EchoMiddleSeam(age, gender, interests, profession);
    EchoFirstSeam(name, age, gender, interests, profession, tail);
  }

  /** The seam between the third and fourth sentence of a rejoined prompt. */
  lemma EchoLastSeam(gender: string, interests: string, profession: string)
    ensures (" I am a " + gender + " interested in " + interests) + ". " + (" I work as a " + profession)
            == " I am a " + gender + " interested in " + interests + ".  I work as a " + profession
  {
    DoubleSpace(" I am a " + gender + " interested in " + interests, "I work as a " + profession);
  }

  /** The seam between the second and third sentence of a rejoined prompt. */
  lemma EchoMiddleSeam(age: string, gender: string, interests: string, profession: string)
    ensures (" I am " + age + " years old") + ". "
            + (" I am a " + gender + " interested in " + interests + ".  I work as a " + profession)
            == " I am " + age + " years old.  I am a " + gender + " interested in " + interests
               + ".  I work as a " + profession
  {
    DoubleSpace(" I am " + age + " years old", "I am a " + gender + " interested in " + interests
                + ".  I work as a " + profession);
  }

  /** The seam between the first and second sentence of a rejoined prompt. */
  lemma EchoFirstSeam(name: string, age: string, gender: string, interests: string, profession: string, tail: string)
    ensures ("My name is " + name) + ". "
            + (" I am " + age + " years old.  I am a " + gender + " interested in " + interests
               + ".  I work as a " + profession) + ". " + tail
            == "My name is " + name + ".  I am " + age + " years old.  I am a " + gender
               + " interested in " + interests + ".  I work as a " + profession + ". " + tail
  {
    DoubleSpace("My name is " + name, "I am " + age + " years old.  I am a " + gender + " interested in "
                + interests + ".  I work as a " + profession + ". " + tail);
  }

  /** ". " followed by a piece that starts with a space is ".  " followed by the rest. */
  lemma DoubleSpace(x: string, y: string)
    ensures x + ". " + (" " + y) == x + ".  " + y
  {
    assert ". " + " " == ".  ";
  }

  /** A successful bio never has more '.'-segments than one more than the prompt has,
      and never more than six when no rendered field contains '.'. It follows from the
      contracts of `Handle`, `Truncate` and `PromptOf`. */
  lemma HandleBioBound(body: Body, generate: string -> Option<string>)
    ensures var r := Handle(body, generate);
            r.Ok? ==>
              && |Split(r.bio, '.')| <= Limit(PromptOf(body.fields))
              && (var f := body.fields;
                  '.' !in Format(f["name"]) && '.' !in Format(f["age"]) && '.' !in Format(f["gender"])
                  && '.' !in Format(f["interests"]) && '.' !in Format(f["profession"])
                  ==> |Split(r.bio, '.')| <= 6)
  {
  }
}

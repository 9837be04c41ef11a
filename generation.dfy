/** The `/generate` handler after validation: ask the language models in
    list order until one returns, clean the reply of markdown code fences,
    read `script` and `image_prompt` from it (or fall back to the raw text),
    and attach the image URL built from the visual prompt. The model calls
    and `json.loads` are inputs: `call(m)` is what asking model `m` with the
    hard-coded prompt gave, `parse(t)` the JSON object `t` decodes to, if any. */
module Generation {
  import opened Wrappers
  import opened Http
  import opened PyText
  import UrlQuote

  const Models: seq<string> := ["gemini-flash-latest", "gemini-1.5-flash-latest"]

  /** What one `generate_content` call gave: the reply's `.text`, or the
      `str()` of the exception raised on the way. */
  datatype Attempt = Returned(text: string) | Raised(message: string)

  /** The position of the first model whose call returns, if any. */
  function FirstReturned(models: seq<string>, call: string -> Attempt): (k: Option<nat>)
    ensures k.Some? ==> k.value < |models| && call(models[k.value]).Returned?
    ensures k.Some? ==> forall j :: 0 <= j < k.value ==> call(models[j]).Raised?
    ensures k.None? ==> forall j :: 0 <= j < |models| ==> call(models[j]).Raised?
  {
    if models == [] then None
    else if call(models[0]).Returned? then Some(0)
    else
      match FirstReturned(models[1..], call)
      case None => None
      case Some(k) => Some(k + 1)
  }

  /** The message of the last call among `models` that raised, if any. */
  function LastError(models: seq<string>, call: string -> Attempt): Option<string> {
    if models == [] then None
    else
      match call(models[|models| - 1])
      case Raised(m) => Some(m)
      case Returned(_) => LastError(models[..|models| - 1], call)
  }

  /** `LastError` names the message of a call that raised after which every
      call returned; it is None only when no call raised. */
  lemma {:induction false} LastErrorIsLast(models: seq<string>, call: string -> Attempt)
    ensures LastError(models, call).Some? ==>
      exists i :: 0 <= i < |models| && call(models[i]) == Raised(LastError(models, call).value) && LaterReturned(models, call, i)
    ensures LastError(models, call).None? ==> forall j :: 0 <= j < |models| ==> call(models[j]).Returned?
  {
    if models != [] && call(models[|models| - 1]).Returned? {
      var front := models[..|models| - 1];
      LastErrorIsLast(front, call);
      var e := LastError(front, call);
      if e.Some? {
        var i :| 0 <= i < |front| && call(front[i]) == Raised(e.value) && LaterReturned(front, call, i);
        assert models[i] == front[i];
        assert forall j :: i < j < |front| ==> models[j] == front[j];
      } else {
        assert forall j :: 0 <= j < |front| ==> models[j] == front[j];
      }
    } else if models != [] {
      assert LaterReturned(models, call, |models| - 1);
    }
  }

  /** Every call after the `i`-th returned. */
  predicate LaterReturned(models: seq<string>, call: string -> Attempt, i: nat) {
    forall j :: i < j < |models| ==> call(models[j]).Returned?
  }

  const AllModelsFailedPrefix := "All models failed. Last error: "

  /** The 500 raised when no model produced text: its detail is the fixed
      prefix followed by the last error, or "None" when there was none. */
  function AllModelsFailed(lastError: Option<string>): (e: HttpError)
    ensures e.status == 500
    ensures |AllModelsFailedPrefix| <= |e.detail| && e.detail[..|AllModelsFailedPrefix|] == AllModelsFailedPrefix
    ensures lastError.Some? ==> e.detail[|AllModelsFailedPrefix|..] == lastError.value
    ensures lastError.None? ==> e.detail[|AllModelsFailedPrefix|..] == "None"
  {
    var e := HttpError(500, AllModelsFailedPrefix + PyStr(lastError));
    assert e.detail[..|AllModelsFailedPrefix|] == AllModelsFailedPrefix;
    assert e.detail[|AllModelsFailedPrefix|..] == PyStr(lastError);
    e
  }

  /** The model-fallback loop. Models are tried in list order and the loop
      stops at the first call that returns; `tried` is the models asked.
      A returned empty text counts as no text: the result is then the 500
      naming the last error of the models before it (or "None"). */
  method GenerateText(models: seq<string>, call: string -> Attempt) returns (r: Result<string, HttpError>, tried: seq<string>)
    ensures tried <= models
    ensures forall i :: 0 <= i < |tried| - 1 ==> call(tried[i]).Raised?
    ensures match FirstReturned(models, call)
      case None => tried == models && r == Err(AllModelsFailed(LastError(models, call)))
      case Some(k) =>
        && tried == models[..k + 1]
        && r == if call(models[k]).text != "" then Ok(call(models[k]).text)
                else Err(AllModelsFailed(LastError(models[..k], call)))
  {
    var textResponse: Option<string> := None;
    var lastError: Option<string> := None;
    tried := [];
    var i := 0;
    while i < |models|
      invariant 0 <= i <= |models|
      invariant tried == models[..i]
      invariant forall j :: 0 <= j < i ==> call(models[j]).Raised?
      invariant lastError == LastError(models[..i], call)
      invariant textResponse == None
    {
      tried := tried + [models[i]];
      var attempt := call(models[i]);
      if attempt.Returned? {
        textResponse := Some(attempt.text);
        break;
      }
      lastError := Some(attempt.message);
      assert models[..i + 1][..i] == models[..i];
      i := i + 1;
    }
    if textResponse == None || textResponse.value == "" {
      r := Err(AllModelsFailed(lastError));
    } else {
      r := Ok(textResponse.value);
    }
  }

  const Fence := "```"
  const JsonFence := "```json"

  predicate StartsWithTwoTicks(t: string) {
    |t| >= 2 && t[0] == '`' && t[1] == '`'
  }

  /** Removing fences never makes a string start with two backticks. */
  lemma RemovalKeepsStart(t: string)
    requires !StartsWithTwoTicks(t)
    ensures !StartsWithTwoTicks(Replace(t, Fence, ""))
  {
    if |t| >= 3 && t[0] == '`' {
      var u := t[1..];
      assert u[0] != '`';
      if |u| >= 3 {
        assert u[..3] != Fence;
      }
    }
  }

  /** After `replace("```", "")` no fence is left: every run of backticks
      keeps fewer than three of its members. */
  lemma {:induction false} NoFenceAfterRemoval(s: string)
    ensures !Contains(Replace(s, Fence, ""), Fence)
    decreases |s|
  {
    if |s| < 3 {
    } else if s[..3] == Fence {
      NoFenceAfterRemoval(s[3..]);
      assert Replace(s, Fence, "") == Replace(s[3..], Fence, "");
    } else {
      var t := Replace(s[1..], Fence, "");
      NoFenceAfterRemoval(s[1..]);
      if s[0] == '`' {
        assert !StartsWithTwoTicks(s[1..]);
        RemovalKeepsStart(s[1..]);
      }
      var r := [s[0]] + t;
      assert r[1..] == t;
      assert r == Replace(s, Fence, "");
    }
  }

  /** An occurrence inside a slice is an occurrence in the whole string. */
  lemma {:induction false} ContainsWithin(s: string, i: int, j: int, p: string)
    requires 0 <= i <= j <= |s| && Contains(s[i..j], p)
    ensures Contains(s, p)
    decreases |s|
  {
    if i > 0 {
      assert s[i..j] == s[1..][i - 1..j - 1];
      ContainsWithin(s[1..], i - 1, j - 1, p);
    } else if s[..j][..|p|] == p {
      assert s[..|p|] == p;
    } else {
      assert s[..j][1..] == s[1..][0..j - 1];
      ContainsWithin(s[1..], 0, j - 1, p);
    }
  }

  /** A pattern absent from a string is absent from each of its slices. */
  lemma AbsentFromSlices(s: string, i: int, j: int, p: string)
    requires 0 <= i <= j <= |s| && !Contains(s, p)
    ensures !Contains(s[i..j], p)
  {
    if Contains(s[i..j], p) {
      ContainsWithin(s, i, j, p);
    }
  }

  /** Stripping whitespace cannot create an occurrence of a pattern. */
  lemma StripKeepsAbsent(s: string, p: string)
    requires !Contains(s, p)
    ensures !Contains(Strip(s), p)
  {
    var l := LStrip(s);
    AbsentFromSlices(s, |s| - |l|, |s|, p);
    assert l == s[|s| - |l|..|s|];
    var r := RStrip(l);
    assert r == l[0..|r|];
    AbsentFromSlices(l, 0, |r|, p);
  }

  /** The reply cleanup: every "```json" removed, then every "```", then
      surrounding whitespace. No code fence survives it, and a text without
      backticks only loses its whitespace margins. */
  function CleanFences(text: string): (clean: string)
    ensures !Contains(clean, Fence)
    ensures Trimmed(clean)
    ensures NoBackticks(text) ==> clean == Strip(text)
  {
    var unfenced := Replace(Replace(text, JsonFence, ""), Fence, "");
    NoFenceAfterRemoval(Replace(text, JsonFence, ""));
    StripKeepsAbsent(unfenced, Fence);
    if NoBackticks(text) then
      NoOccurrence(text, JsonFence);
      NoOccurrence(text, Fence);
      Strip(unfenced)
    else
      Strip(unfenced)
  }

  predicate NoBackticks(s: string) {
    forall i :: 0 <= i < |s| ==> s[i] != '`'
  }

  /** A pattern that starts with a backtick cannot occur where there is none. */
  lemma {:induction false} NoOccurrence(s: string, p: string)
    requires p != [] && p[0] == '`'
    requires forall i :: 0 <= i < |s| && s[i] == '`' ==> |s| - i < |p|
    ensures !Contains(s, p)
    decreases |s|
  {
    if |p| <= |s| {
      assert s[..|p|][0] == s[0];
      NoOccurrence(s[1..], p);
    }
  }

  /** Replacing a backtick pattern steps over a character that is not a backtick. */
  lemma ReplaceSkipsChar(c: char, t: string, p: string)
    requires p != [] && p[0] == '`' && c != '`'
    ensures Replace([c] + t, p, "") == [c] + Replace(t, p, "")
  {
    var s := [c] + t;
    assert s[1..] == t;
    if |s| < |p| {
      assert Replace(t, p, "") == t;
    } else {
      assert s[..|p|][0] == c;
    }
  }

  /** Replacing a backtick pattern skips over a prefix without backticks. */
  lemma {:induction false} ReplaceSkipsPlainPrefix(a: string, b: string, p: string)
    requires p != [] && p[0] == '`' && NoBackticks(a)
    ensures Replace(a + b, p, "") == a + Replace(b, p, "")
    decreases |a|
  {
    if a == [] {
      assert a + b == b;
    } else {
      SplitHead(a, b);
      ReplaceSkipsChar(a[0], a[1..] + b, p);
      ReplaceSkipsPlainPrefix(a[1..], b, p);
      SplitHead(a, Replace(b, p, ""));
    }
  }

  lemma SplitHead(a: string, b: string)
    requires a != []
    ensures a + b == [a[0]] + (a[1..] + b)
  {
  }

  /** The first replacement takes off the opening "```json" and nothing else. */
  lemma DropOpeningFence(inner: string)
    requires NoBackticks(inner)
    ensures Replace(JsonFence + inner + Fence, JsonFence, "") == inner + Fence
  {
    var s := JsonFence + inner + Fence;
    assert s[..|JsonFence|] == JsonFence && s[|JsonFence|..] == inner + Fence;
    NoOccurrence(inner + Fence, JsonFence);
  }

  /** The second replacement takes off the closing "```". */
  lemma DropClosingFence(inner: string)
    requires NoBackticks(inner)
    ensures Replace(inner + Fence, Fence, "") == inner
  {
    ReplaceSkipsPlainPrefix(inner, Fence, Fence);
    assert Replace(Fence, Fence, "") == "" + Replace("", Fence, "");
  }

  lemma LStripNewline(t: string)
    ensures LStrip("\n" + t) == LStrip(t)
  {
    var s := "\n" + t;
    assert s != [] && IsSpace(s[0]);
    assert s[1..] == t;
  }

  lemma RStripNewline(t: string)
    ensures RStrip(t + "\n") == RStrip(t)
  {
    assert (t + "\n")[..|t|] == t;
  }

  /** Stripping a trimmed text framed by two newlines gives the text back. */
  lemma StripNewlineFrame(j: string)
    requires Trimmed(j)
    ensures Strip("\n" + j + "\n") == j
  {
    assert "\n" + j + "\n" == "\n" + (j + "\n");
    LStripNewline(j + "\n");
    RStripNewline(j);
    if j == [] {
      assert LStrip("\n") == LStrip("");
    } else {
      assert (j + "\n")[0] == j[0];
      assert LStrip(j + "\n") == j + "\n";
      assert RStrip(j) == j;
    }
  }

  /** A JSON text without backticks or surrounding whitespace, wrapped in a
      "```json" ... "```" block as models tend to answer, is recovered exactly. */
  lemma CleanFencesUnwrapsJsonBlock(j: string)
    requires NoBackticks(j) && Trimmed(j)
    ensures CleanFences(JsonFence + "\n" + j + "\n" + Fence) == j
  {
    var inner := "\n" + j + "\n";
    assert NoBackticks(inner);
    assert JsonFence + "\n" + j + "\n" + Fence == JsonFence + inner + Fence;
    DropOpeningFence(inner);
    DropClosingFence(inner);
    StripNewlineFrame(j);
  }

  const DefaultScript := "Error generating script."
  const DefaultVisualPrompt := "Error generating visual prompt."

  /** What `json.loads` gives for a text it accepts: an object (its string
      fields), or some other JSON value, known by its Python type name. */
  datatype Decoded = JsonObject(fields: map<string, string>) | JsonOther(typeName: string)

  /** `script` and `visual_prompt` as read from the model's text. */
  datatype Reply = Reply(script: string, visualPrompt: string)

  const CatchAllPrefix := "Backend Error: "

  /** The 500 the catch-all makes of an exception: "Backend Error: "
      followed by the exception's `str()`. */
  function CatchAll(message: string): (e: HttpError)
    ensures e.status == 500 && |e.detail| == |CatchAllPrefix| + |message|
    ensures e.detail[..|CatchAllPrefix|] == CatchAllPrefix && e.detail[|CatchAllPrefix|..] == message
  {
    var e := HttpError(500, CatchAllPrefix + message);
    assert e.detail[..|CatchAllPrefix|] == CatchAllPrefix;
    e
  }

  /** The 500 the catch-all makes of the `AttributeError` raised by calling
      `.get` on a JSON value that is not an object; the type name is read
      back from the detail. */
  function NotAnObject(typeName: string): (e: HttpError)
    ensures e.status == 500 && |CatchAllPrefix| + 1 + |typeName| <= |e.detail|
    ensures e.detail[..|CatchAllPrefix|] == CatchAllPrefix
    ensures e.detail[|CatchAllPrefix| + 1..|CatchAllPrefix| + 1 + |typeName|] == typeName
  {
    var e := CatchAll("'" + typeName + "' object has no attribute 'get'");
    assert e.detail[|CatchAllPrefix|..][1..1 + |typeName|] == typeName;
    e
  }

  /** `d.get(key, default)`. */
  function Get(d: map<string, string>, key: string, default: string): string {
    if key in d then d[key] else default
  }

  /** Reading the reply: if the cleaned text is a JSON object, each key
      present replaces its default; if it is not JSON at all, the script is
      the raw, uncleaned text and the visual prompt keeps its default; any
      other JSON value ends the request with a 500. */
  function ReadReply(text: string, parse: string -> Option<Decoded>): (r: Result<Reply, HttpError>)
    ensures parse(CleanFences(text)).None? ==> r == Ok(Reply(text, DefaultVisualPrompt))
    ensures r.Err? <==> parse(CleanFences(text)).Some? && parse(CleanFences(text)).value.JsonOther?
    ensures r.Err? ==> r.error == NotAnObject(parse(CleanFences(text)).value.typeName)
    ensures parse(CleanFences(text)).Some? && parse(CleanFences(text)).value.JsonObject? ==>
      var d := parse(CleanFences(text)).value.fields;
      && r.Ok?
      && ("script" in d ==> r.value.script == d["script"])
      && ("script" !in d ==> r.value.script == DefaultScript)
      && ("image_prompt" in d ==> r.value.visualPrompt == d["image_prompt"])
      && ("image_prompt" !in d ==> r.value.visualPrompt == DefaultVisualPrompt)
  {
    match parse(CleanFences(text))
    case None => Ok(Reply(text, DefaultVisualPrompt))
    case Some(JsonOther(t)) => Err(NotAnObject(t))
    case Some(JsonObject(d)) => Ok(Reply(Get(d, "script", DefaultScript), Get(d, "image_prompt", DefaultVisualPrompt)))
  }

  /** The `/generate` response body. */
  datatype GenerateResponse = GenerateResponse(script: string, visualPrompt: string, imageUrl: Option<string>)

  /** The response built from the model's text: the reply read from it and
      the image URL for its visual prompt, from which that prompt can be read back. */
  function Respond(text: string, parse: string -> Option<Decoded>): (resp: Result<GenerateResponse, HttpError>)
    ensures resp.Ok? <==> ReadReply(text, parse).Ok?
    ensures resp.Err? ==> resp.error == ReadReply(text, parse).error
    ensures resp.Ok? ==>
      && resp.value.script == ReadReply(text, parse).value.script
      && resp.value.visualPrompt == ReadReply(text, parse).value.visualPrompt
      && resp.value.imageUrl.Some?
      && UrlQuote.PromptOfImageUrl(resp.value.imageUrl.value) == Some(resp.value.visualPrompt)
  {
    match ReadReply(text, parse)
    case Err(e) => Err(e)
    case Ok(reply) =>
      UrlQuote.ImageUrlRoundTrip(reply.visualPrompt);
      Ok(GenerateResponse(reply.script, reply.visualPrompt, Some(UrlQuote.ImageUrl(reply.visualPrompt))))
  }

  /** `/generate`: the first model that returns decides. Its non-empty text
      is turned into the response; empty text, or no model returning, gives
      the 500 naming the last error. Every failure is a 500. */
  method GenerateContent(call: string -> Attempt, parse: string -> Option<Decoded>)
    returns (r: Result<GenerateResponse, HttpError>)
    ensures match FirstReturned(Models, call)
      case None => r == Err(AllModelsFailed(LastError(Models, call)))
      case Some(k) =>
        if call(Models[k]).text != "" then r == Respond(call(Models[k]).text, parse)
        else r == Err(AllModelsFailed(LastError(Models[..k], call)))
    ensures r.Err? ==> r.error.status == 500
  {
    var text, tried := GenerateText(Models, call);
    if text.Err? {
      return Err(text.error);
    }
    var reply := ReadReply(text.value, parse);
    if reply.Err? {
      return Err(reply.error);
    }
    var visualPrompt := reply.value.visualPrompt;
    var url := UrlQuote.ImageUrl(visualPrompt);
    r := Ok(GenerateResponse(reply.value.script, visualPrompt, Some(url)));
  }
}

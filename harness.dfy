/**
 * harness.py: starter code generated from a challenge's function metadata,
 * and the JSON standard-input/standard-output wrapper put around a user's
 * function before it is run.
 */
module Harness {
  import opened Common
  import opened Text

  /** One element of `function_params`; only its name is used. */
  datatype Param = Param(name: string, typ: string)

  /** `SUPPORTED_HARNESS_LANGUAGES`. */
  const Supported: set<string> := {"python", "javascript"}

  /** `", ".join(p["name"] for p in function_params)`. */
  function ParamList(params: seq<Param>): string {
    Join(", ", seq(|params|, i requires 0 <= i < |params| => params[i].name))
  }

  // ---------------------------------------------------------------------------
  // Starter code: a fixed prefix, the parameter list, a fixed suffix

  function StarterPrefix(language: string, functionName: string): string {
    if language == "python" then "def " + functionName + "(" else "function " + functionName + "("
  }

  function StarterSuffix(language: string): string {
    if language == "python" then "):\n    pass\n" else ") {\n    \n}\n"
  }

  /** `_python_starter`: the return type is accepted and ignored. */
  function PythonStarter(functionName: string, params: seq<Param>, returnType: string): string {
    "def " + functionName + "(" + ParamList(params) + "):\n    pass\n"
  }

  /** `_js_starter`: the return type is accepted and ignored. */
  function JsStarter(functionName: string, params: seq<Param>, returnType: string): string {
    "function " + functionName + "(" + ParamList(params) + ") {\n    \n}\n"
  }

  /** `generate_starter_code`: None for a language without a starter. */
  function GenerateStarterCode(functionName: string, params: seq<Param>, returnType: string, language: string): (r: Option<string>)
    ensures r.Some? <==> language in Supported
  {
    if language == "python" then Some(PythonStarter(functionName, params, returnType))
    else if language == "javascript" then Some(JsStarter(functionName, params, returnType))
    else None
  }

  /** The parameter list written into a starter, recovered from the starter alone. */
  function StarterParams(code: string, language: string, functionName: string): string {
    var lo := |StarterPrefix(language, functionName)|;
    var hi := |code| - |StarterSuffix(language)|;
    if lo <= hi then code[lo..hi] else ""
  }

  /** A starter is the prefix, the comma-separated names in order, and the suffix. */
  lemma StarterShape(functionName: string, params: seq<Param>, returnType: string, language: string)
    requires language in Supported
    ensures GenerateStarterCode(functionName, params, returnType, language)
      == Some(StarterPrefix(language, functionName) + ParamList(params) + StarterSuffix(language))
  {
  }

  /** The parameter list can be read back from the starter, whatever the names. */
  lemma StarterParamsRoundTrip(functionName: string, params: seq<Param>, returnType: string, language: string)
    requires language in Supported
    ensures StarterParams(GenerateStarterCode(functionName, params, returnType, language).value, language, functionName)
      == ParamList(params)
  {
    var pre := StarterPrefix(language, functionName);
    var mid := ParamList(params);
    var suf := StarterSuffix(language);
    StarterShape(functionName, params, returnType, language);
    var code := pre + mid + suf;
    assert code[|pre|..|code| - |suf|] == mid;
  }

  /**
   * The names in the starter's parameter list are the parameters' names, in
   * order, as long as no name contains a comma.
   */
  lemma StarterNamesInOrder(functionName: string, params: seq<Param>, returnType: string, language: string)
    requires language in Supported && |params| > 0
    requires forall k, i :: 0 <= k < |params| && 0 <= i < |params[k].name| ==> params[k].name[i] != ','
    ensures var code := GenerateStarterCode(functionName, params, returnType, language).value;
      var names := Split(StarterParams(code, language, functionName), ", ");
      |names| == |params| && forall k :: 0 <= k < |params| ==> names[k] == params[k].name
  {
    StarterParamsRoundTrip(functionName, params, returnType, language);
    var names := seq(|params|, i requires 0 <= i < |params| => params[i].name);
    SplitJoin(", ", names);
  }

  /** `generate_all_starter_code`: one starter per supported language, in whatever order the set yields them. */
  method GenerateAllStarterCode(functionName: string, params: seq<Param>, returnType: string)
    returns (result: map<string, string>)
    ensures result.Keys == Supported
    ensures forall language :: language in result ==>
      Some(result[language]) == GenerateStarterCode(functionName, params, returnType, language)
  {
    result := map[];
    var remaining := Supported;
    while remaining != {}
      invariant remaining <= Supported
      invariant result.Keys == Supported - remaining
      invariant forall language :: language in result ==>
        Some(result[language]) == GenerateStarterCode(functionName, params, returnType, language)
      decreases remaining
    {
      var language :| language in remaining;
      var code := GenerateStarterCode(functionName, params, returnType, language);
      assert code.Some? && code.value != "" by {
        assert language == "python" || language == "javascript";
      }
      if code.Some? && code.value != "" {
        result := result[language := code.value];
      }
      remaining := remaining - {language};
    }
  }

  // ---------------------------------------------------------------------------
  // The JSON I/O wrapper: a fixed header, the user's code, a fixed trailer

  /** `_python_wrap`'s first line and the blank line after it. */
  const PythonHeader := "import json, sys\n\n"

  /** What `_python_wrap` puts after the user's code: read the argument array, call the function, print its JSON result. */
  function PythonTrailer(functionName: string): string {
    "\n\n"
    + "_args = json.loads(sys.stdin.read())\n"
    + "_result = " + functionName + "(*_args)\n"
    + "print(json.dumps(_result, separators=(',', ':')))\n"
  }

  /** What `_js_wrap` puts after the user's code, to the same effect. */
  function JsTrailer(functionName: string): string {
    "\n\n"
    + "const _input = require('fs').readFileSync('/dev/stdin', 'utf8');\n"
    + "const _args = JSON.parse(_input);\n"
    + "const _result = " + functionName + "(..._args);\n"
    + "console.log(JSON.stringify(_result));\n"
  }

  /** `_python_wrap`. */
  function PythonWrap(userCode: string, functionName: string): string {
    PythonHeader + userCode + PythonTrailer(functionName)
  }

  /** `_js_wrap`: no header. */
  function JsWrap(userCode: string, functionName: string): string {
    userCode + JsTrailer(functionName)
  }

  /** What precedes the user's code in the wrapped program. */
  function WrapHeader(language: string): string {
    if language == "python" then PythonHeader else ""
  }

  /** What follows the user's code in the wrapped program. */
  function WrapTrailer(language: string, functionName: string): string {
    if language == "python" then PythonTrailer(functionName) else JsTrailer(functionName)
  }

  /** `wrap_code`: the wrapped program, or the ValueError it raises. */
  function WrapCode(userCode: string, functionName: string, language: string): (r: Try<string>)
    ensures r.Ok? <==> language in Supported
    ensures r.Raised? ==> r.message == "Harness wrapping not supported for " + language
  {
    if language == "python" then Ok(PythonWrap(userCode, functionName))
    else if language == "javascript" then Ok(JsWrap(userCode, functionName))
    else Raised("Harness wrapping not supported for " + language)
  }

  /** The user's code taken back out of a wrapped program. */
  function Unwrap(program: string, functionName: string, language: string): string {
    var lo := |WrapHeader(language)|;
    var hi := |program| - |WrapTrailer(language, functionName)|;
    if lo <= hi then program[lo..hi] else ""
  }

  /** Wrapping puts the user's code verbatim between a header and a trailer fixed by the language and function name. */
  lemma WrapShape(userCode: string, functionName: string, language: string)
    requires language in Supported
    ensures WrapCode(userCode, functionName, language)
      == Ok(WrapHeader(language) + userCode + WrapTrailer(language, functionName))
  {
    if language == "javascript" {
      assert WrapHeader(language) + userCode == userCode;
    }
  }

  /** Both wrapped programs end with a newline, whatever the user's code ends with. */
  lemma WrapEndsWithNewline(userCode: string, functionName: string, language: string)
    requires language in Supported
    ensures var program := WrapCode(userCode, functionName, language).value;
      |program| > 0 && program[|program| - 1] == '\n'
  {
    WrapShape(userCode, functionName, language);
    var tail := WrapTrailer(language, functionName);
    var program := WrapHeader(language) + userCode + tail;
    assert program[|program| - 1] == tail[|tail| - 1];
  }

  /** Wrapping loses nothing of the user's code. */
  lemma UnwrapWrap(userCode: string, functionName: string, language: string)
    requires language in Supported
    ensures Unwrap(WrapCode(userCode, functionName, language).value, functionName, language) == userCode
  {
    var head := WrapHeader(language);
    var tail := WrapTrailer(language, functionName);
    WrapShape(userCode, functionName, language);
    var program := head + userCode + tail;
    assert program[|head|..|program| - |tail|] == userCode;
  }

  /** So two different user programs never wrap to the same program. */
  lemma WrapInjective(u1: string, u2: string, functionName: string, language: string)
    requires language in Supported
    requires WrapCode(u1, functionName, language) == WrapCode(u2, functionName, language)
    ensures u1 == u2
  {
    UnwrapWrap(u1, functionName, language);
    UnwrapWrap(u2, functionName, language);
  }

  /** Starters and wrappers exist for the same languages; any other language gets None or the ValueError. */
  lemma SupportAgrees(userCode: string, functionName: string, params: seq<Param>, returnType: string, language: string)
    ensures GenerateStarterCode(functionName, params, returnType, language).Some? <==> language in Supported
    ensures WrapCode(userCode, functionName, language).Ok? <==> language in Supported
    ensures language !in Supported ==>
      WrapCode(userCode, functionName, language) == Raised("Harness wrapping not supported for " + language)
  {
  }
}

/**
 * Routing steps that src/Core/Http/Dispatcher.php and
 * src/Core/Helpers/RouteHelper.php implement with identical code:
 * the request-verb normalisation, the namespace trim, the class-name
 * check in front of class_exists, and the anchored parameter check.
 */
module Routing {
  import opened Text

  /** preg_match(regex, subject) === 1; PCRE itself is not modelled. */
  type Preg = (string, string) -> bool

  /** The request verb: lower-cased, with `patch` handled as `put`. */
  function NormalizeVerb(httpMethod: string): (verb: string)
    ensures Lower(httpMethod) == "patch" ==> verb == "put"
    ensures Lower(httpMethod) != "patch" ==> verb == Lower(httpMethod)
    ensures Lower(verb) == verb
  {
    var lowered := Lower(httpMethod);
    if lowered == "patch" then "put" else lowered
  }

  /** trim($s, '\\'): strip backslashes from both ends. */
  function TrimBackslashes(s: string): (r: string)
    ensures r == [] || (r[0] != '\\' && r[|r| - 1] != '\\')
    ensures '\\' !in s ==> r == s
  {
    TrimRight(TrimLeft(s))
  }

  function TrimLeft(s: string): (r: string)
    ensures r == [] || r[0] != '\\'
    ensures '\\' !in s ==> r == s
    ensures |r| <= |s| && r == s[|s| - |r|..]
    decreases |s|
  {
    if s != [] && s[0] == '\\' then TrimLeft(s[1..]) else s
  }

  function TrimRight(s: string): (r: string)
    ensures r == [] || r[|r| - 1] != '\\'
    ensures '\\' !in s ==> r == s
    ensures |r| <= |s| && r == s[..|r|]
    decreases |s|
  {
    if s != [] && s[|s| - 1] == '\\' then TrimRight(s[..|s| - 1]) else s
  }

  /** PCRE's \w without the u modifier. */
  predicate IsWordChar(c: char) {
    ('a' <= c <= 'z') || ('A' <= c <= 'Z') || ('0' <= c <= '9') || c == '_'
  }

  predicate IsClassNameChar(c: char) {
    IsWordChar(c) || c == '\\'
  }

  predicate AllClassNameChars(s: string) {
    forall i :: 0 <= i < |s| ==> IsClassNameChar(s[i])
  }

  /** /^[\w\\]*$/; PCRE's `$` also matches in front of one final newline. */
  predicate MatchesClassNamePattern(name: string) {
    AllClassNameChars(name)
    || (|name| >= 1 && name[|name| - 1] == '\n' && AllClassNameChars(name[..|name| - 1]))
  }

  /** isValidClass: the pattern check, then class_exists against the registered names. */
  predicate IsValidClass(name: string, classes: set<string>) {
    MatchesClassNamePattern(name) && name in classes
  }

  /**
   * The names isValidClass accepts: registered classes whose characters are
   * all word characters or backslashes, except that the last may be a newline.
   */
  lemma ValidClassChars(name: string, classes: set<string>)
    ensures IsValidClass(name, classes)
        <==> name in classes
             && forall i :: 0 <= i < |name| ==> IsClassNameChar(name[i]) || (i == |name| - 1 && name[i] == '\n')
  {
    if forall i :: 0 <= i < |name| ==> IsClassNameChar(name[i]) || (i == |name| - 1 && name[i] == '\n') {
      if !AllClassNameChars(name) {
        assert |name| >= 1 && name[|name| - 1] == '\n';
        var init := name[..|name| - 1];
        forall i | 0 <= i < |init|
          ensures IsClassNameChar(init[i])
        {
          assert init[i] == name[i];
        }
      }
    }
    if MatchesClassNamePattern(name) && !AllClassNameChars(name) {
      forall i | 0 <= i < |name| - 1
        ensures IsClassNameChar(name[i])
      {
        assert name[..|name| - 1][i] == name[i];
      }
    }
  }

  /** The regex literal the source builds: the spec is spliced in unescaped. */
  function AnchoredPattern(spec: string): string {
    "/^" + spec + "$/"
  }

  /** $parameterSpecs[$i]; a missing offset reads as null, which concatenates as "". */
  function SpecAt(specs: seq<string>, i: nat): string {
    if i < |specs| then specs[i] else ""
  }

  /** Every parameter matches its anchored specification. */
  predicate ParametersValid(specs: seq<string>, parameters: seq<string>, preg: Preg) {
    forall i :: 0 <= i < |parameters| ==> preg(AnchoredPattern(SpecAt(specs, i)), parameters[i])
  }

  /**
   * areParametersValid: checks the parameters in order and stops at the first
   * one whose anchored pattern does not match; `checked` counts the patterns tried.
   */
  method AreParametersValid(specs: seq<string>, parameters: seq<string>, preg: Preg)
    returns (valid: bool, checked: nat)
    ensures valid == ParametersValid(specs, parameters, preg)
    ensures valid ==> checked == |parameters|
    ensures !valid ==>
              && 1 <= checked <= |parameters|
              && !preg(AnchoredPattern(SpecAt(specs, checked - 1)), parameters[checked - 1])
              && ParametersValid(specs, parameters[..checked - 1], preg)
  {
    var i := 0;
    while i < |parameters|
      invariant 0 <= i <= |parameters|
      invariant ParametersValid(specs, parameters[..i], preg)
    {
      if !preg(AnchoredPattern(SpecAt(specs, i)), parameters[i]) {
        return false, i + 1;
      }
      i := i + 1;
    }
    assert parameters[..i] == parameters;
    return true, i;
  }
}

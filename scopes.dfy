/**
 * `assertUserHasScopes` (src/Scopes.ts): build a request checker from the required scopes,
 * optionally with a mapper that turns each readable scope name into the internal name the
 * user's scope list contains.
 */
module Scopes {
  import opened Wrappers
  import opened HttpErrors

  /** The first argument: none, the first required scope, or a mapper. */
  datatype FirstArgument = NoArgument | FirstScope(scope: string) | Mapper(map_: string -> string)

  /**
   * The checker's captured state: `scopes` (the readable names, after the first scope was
   * put in front) and `requiredScopes` (their internal names).
   */
  datatype ScopeChecker = ScopeChecker(scopes: seq<string>, requiredScopes: seq<string>)

  /** Every checker made by `AssertUserHasScopes` pairs each readable name with one internal name. */
  predicate WellPaired(c: ScopeChecker) {
    |c.scopes| == |c.requiredScopes|
  }

  /** `array.map(f)`. */
  function MapAll(f: string -> string, s: seq<string>): (r: seq<string>)
    ensures |r| == |s| && forall i :: 0 <= i < |s| ==> r[i] == f(s[i])
  {
    seq(|s|, i requires 0 <= i < |s| => f(s[i]))
  }

  /**
   * src/Scopes.ts:14-18: a string first argument is put in front of the rest (`unshift`);
   * a mapper is applied to the rest to give the internal names.
   */
  method AssertUserHasScopes(first: FirstArgument, rest: seq<string>) returns (c: ScopeChecker)
    ensures WellPaired(c)
    ensures c.scopes == if first.FirstScope? then [first.scope] + rest else rest
    ensures forall i :: 0 <= i < |c.scopes| ==>
      c.requiredScopes[i] == if first.Mapper? then first.map_(c.scopes[i]) else c.scopes[i]
  {
    var scopes := rest;
    if first.FirstScope? {
      scopes := [first.scope] + scopes;
    }
    var requiredScopes := if first.Mapper? then MapAll(first.map_, scopes) else scopes;
    c := ScopeChecker(scopes, requiredScopes);
  }

  /** `required.filter(scope => !user.includes(scope))`. */
  function MissingScopes(required: seq<string>, user: seq<string>): (r: seq<string>)
    ensures forall x :: x in r <==> x in required && x !in user
    ensures |r| <= |required|
    ensures r == [] <==> forall x :: x in required ==> x in user
  {
    if required == [] then []
    else if required[0] in user then MissingScopes(required[1..], user)
    else [required[0]] + MissingScopes(required[1..], user)
  }

  /** Filtering distributes over concatenation, so the missing scopes keep the required order. */
  lemma {:induction false} MissingScopesAppend(a: seq<string>, b: seq<string>, user: seq<string>)
    ensures MissingScopes(a + b, user) == MissingScopes(a, user) + MissingScopes(b, user)
  {
    if a == [] {
      assert a + b == b;
    } else {
      assert (a + b)[0] == a[0] && (a + b)[1..] == a[1..] + b;
      MissingScopesAppend(a[1..], b, user);
    }
  }

  /** Each scope is missing exactly as often as it is required, unless the user has it. */
  lemma {:induction false} MissingScopesCount(required: seq<string>, user: seq<string>, x: string)
    ensures multiset(MissingScopes(required, user))[x] == if x in user then 0 else multiset(required)[x]
  {
    if required != [] {
      MissingScopesCount(required[1..], user, x);
      assert required == [required[0]] + required[1..];
    }
  }

  /** `s.indexOf(x)` for an `x` that occurs in `s`: its first index. */
  function IndexOf(s: seq<string>, x: string): (r: nat)
    requires x in s
    ensures r < |s| && s[r] == x
    ensures forall j :: 0 <= j < r ==> s[j] != x
  {
    if s[0] == x then 0 else 1 + IndexOf(s[1..], x)
  }

  /** src/Scopes.ts:27: each missing internal name is reported by the readable name at its first index. */
  function ReadableNames(c: ScopeChecker, internal: seq<string>): (r: seq<string>)
    requires WellPaired(c)
    requires forall x :: x in internal ==> x in c.requiredScopes
    ensures |r| == |internal|
    ensures forall i :: 0 <= i < |internal| ==>
      exists k :: 0 <= k < |c.requiredScopes| && c.requiredScopes[k] == internal[i] && r[i] == c.scopes[k]
        && forall j :: 0 <= j < k ==> c.requiredScopes[j] != internal[i]
  {
    var r := seq(|internal|, i requires 0 <= i < |internal| => c.scopes[IndexOf(c.requiredScopes, internal[i])]);
    assert forall i :: 0 <= i < |internal| ==>
      exists k :: 0 <= k < |c.requiredScopes| && c.requiredScopes[k] == internal[i] && r[i] == c.scopes[k]
        && forall j :: 0 <= j < k ==> c.requiredScopes[j] != internal[i]
    by {
      forall i | 0 <= i < |internal|
        ensures exists k ::
          0 <= k < |c.requiredScopes| && c.requiredScopes[k] == internal[i] && r[i] == c.scopes[k] &&
          forall j :: 0 <= j < k ==> c.requiredScopes[j] != internal[i]
      {
        var k := IndexOf(c.requiredScopes, internal[i]);
        assert r[i] == c.scopes[k];
      }
    }
    r
  }

  /** Without a mapper the readable names are the internal names themselves. */
  lemma ReadableNamesWithoutMapper(c: ScopeChecker, internal: seq<string>)
    requires WellPaired(c) && c.scopes == c.requiredScopes
    requires forall x :: x in internal ==> x in c.requiredScopes
    ensures ReadableNames(c, internal) == internal
  {
    var r := ReadableNames(c, internal);
    forall i | 0 <= i < |internal| ensures r[i] == internal[i] {
      var k := IndexOf(c.requiredScopes, internal[i]);
    }
  }

  /** `parts.join(separator)`. */
  function Join(parts: seq<string>, separator: string): string {
    if parts == [] then ""
    else if |parts| == 1 then parts[0]
    else parts[0] + separator + Join(parts[1..], separator)
  }

  /** src/Scopes.ts:29: singular for exactly one missing scope, plural otherwise. */
  function MissingMessage(internal: seq<string>, readable: seq<string>): string {
    "Missing scope" + (if |internal| == 1 then "" else "s") + ": " + Join(readable, ", ")
  }

  const NoScopeInformation := "Did not receive enough authorization information to determine access rights."

  function TextList(s: seq<string>): (r: Value)
    ensures r.List? && |r.items| == |s|
    ensures forall i :: 0 <= i < |s| ==> r.items[i] == Text(s[i])
  {
    List(seq(|s|, i requires 0 <= i < |s| => Text(s[i])))
  }

  /** What the returned middleware does: call `next`, or throw. */
  datatype Verdict = CallNext | Throw(err: HttpError)

  /**
   * The returned middleware (src/Scopes.ts:20-32). `userScopes` is `req.authInfo.scopes`,
   * `None` when there is no `authInfo` or no `scopes` (an empty list is present).
   */
  function Check(c: ScopeChecker, userScopes: Option<seq<string>>): (r: Verdict)
    requires WellPaired(c)
    ensures userScopes.None? ==> r == Throw(NewHttpError(401, NoScopeInformation, None, None))
    ensures r.CallNext? <==> userScopes.Some? && forall x :: x in c.requiredScopes ==> x in userScopes.value
    ensures userScopes.Some? && r.Throw? ==>
      var internal := MissingScopes(c.requiredScopes, userScopes.value);
      var readable := ReadableNames(c, internal);
      && internal != []
      && r.err.code == 403
      && r.err.message == MissingMessage(internal, readable)
      && r.err.info == map[
           "requiredScopes" := TextList(c.requiredScopes),
           "userScopes" := TextList(userScopes.value),
           "missingScopes" := Object(map["internal" := TextList(internal), "readable" := TextList(readable)])]
  {
    match userScopes
    case None => Throw(NewHttpError(401, NoScopeInformation, None, None))
    case Some(user) =>
      if forall x :: x in c.requiredScopes ==> x in user then CallNext
      else
        var internal := MissingScopes(c.requiredScopes, user);
        var readable := ReadableNames(c, internal);
        Throw(NewHttpError(403, MissingMessage(internal, readable),
          Some(map[
            "requiredScopes" := TextList(c.requiredScopes),
            "userScopes" := TextList(user),
            "missingScopes" := Object(map["internal" := TextList(internal), "readable" := TextList(readable)])]),
          None))
  }

  /** A present but empty scope list is not a 401: with anything required it is a 403. */
  lemma EmptyUserScopesAreForbidden(c: ScopeChecker)
    requires WellPaired(c) && c.requiredScopes != []
    ensures Check(c, Some([])).Throw? && Check(c, Some([])).err.code == 403
  {
    assert c.requiredScopes[0] in c.requiredScopes;
  }

  /** One missing scope gives the singular message naming its readable scope. */
  lemma OneMissingMessage(x: string, y: string)
    ensures MissingMessage([x], [y]) == "Missing scope: " + y
  {
  }

  /** Of three required scopes, the user holding only the last misses the first two, in order. */
  lemma TwoMissingScopes()
    ensures MissingScopes(["myScope", "otherScope", "presentScope"], ["presentScope"]) == ["myScope", "otherScope"]
  {
    var required := ["myScope", "otherScope", "presentScope"];
    var user := ["presentScope"];
    assert required[1..] == ["otherScope", "presentScope"] && required[1..][1..] == ["presentScope"];
    assert MissingScopes(["presentScope"], user) == [];
    assert MissingScopes(required[1..], user) == ["otherScope"];
  }

  /** The plural message lists the readable names separated by ", ". */
  lemma TwoMissingText()
    ensures MissingMessage(["myScope", "otherScope"], ["myScope", "otherScope"]) ==
      "Missing scopes: " + ("myScope" + ", " + "otherScope")
  {
    assert ["myScope", "otherScope"][1..] == ["otherScope"];
    assert "Missing scope" + "s" + ": " == "Missing scopes: ";
  }

  /** The Scopes.spec.ts case with three required scopes, of which the user has only the last. */
  lemma TwoMissingMessage()
    ensures
      var c := ScopeChecker(["myScope", "otherScope", "presentScope"], ["myScope", "otherScope", "presentScope"]);
      Check(c, Some(["presentScope"])).Throw? &&
      Check(c, Some(["presentScope"])).err.message == "Missing scopes: " + ("myScope" + ", " + "otherScope")
  {
    var required := ["myScope", "otherScope", "presentScope"];
    var c := ScopeChecker(required, required);
    TwoMissingScopes();
    ReadableNamesWithoutMapper(c, ["myScope", "otherScope"]);
    TwoMissingText();
    assert required[0] !in ["presentScope"];
  }

  /** Of two required scopes, a user holding only the first is told the readable name of the second. */
  lemma SecondOfTwoMissing(c: ScopeChecker, user: seq<string>)
    requires WellPaired(c) && |c.requiredScopes| == 2
    requires c.requiredScopes[0] in user && c.requiredScopes[1] !in user
    ensures Check(c, Some(user)).Throw?
    ensures Check(c, Some(user)).err.message == "Missing scope: " + c.scopes[1]
  {
    var required := c.requiredScopes;
    var x := required[1];
    assert required[1..] == [x] && [x][1..] == [];
    assert MissingScopes([x], user) == [x];
    var internal := MissingScopes(required, user);
    assert internal == [x];
    assert IndexOf(required[1..], x) == 0;
    assert IndexOf(required, x) == 1;
    var readable := ReadableNames(c, internal);
    assert readable == [c.scopes[1]];
    OneMissingMessage(x, c.scopes[1]);
  }

  /**
   * The Scopes.spec.ts case with a prefix/postfix mapper: the user holds only the mapped
   * `myScope`, so `presentScope` is reported by its readable name.
   */
  lemma MapperReportsReadableName()
    ensures
      var f := (s: string) => "prefix." + s + ".postfix";
      var c := ScopeChecker(["myScope", "presentScope"], MapAll(f, ["myScope", "presentScope"]));
      Check(c, Some(["prefix.myScope.postfix"])).Throw? &&
      Check(c, Some(["prefix.myScope.postfix"])).err.message == "Missing scope: " + "presentScope"
  {
    var f := (s: string) => "prefix." + s + ".postfix";
    var c := ScopeChecker(["myScope", "presentScope"], MapAll(f, ["myScope", "presentScope"]));
    var user := ["prefix.myScope.postfix"];
    assert c.requiredScopes[0] == user[0];
    assert |c.requiredScopes[1]| != |user[0]|;
    SecondOfTwoMissing(c, user);
  }
}

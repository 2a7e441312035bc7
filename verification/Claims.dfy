/** The claim rule engine: operators, filters, role mapping and identity. */
module Claims {
  import opened Basics
  import opened Json

  datatype ClaimFilter = ClaimFilter(path: string, op: string, value: Value)

  datatype RoleRule = RoleRule(path: string, op: string, value: Value, role: string)

  /** The regular-expression library and fmt.Sprint, about which nothing is assumed. */
  datatype Engine = Engine(
    compiles: string -> bool,
    matches: (string, string) -> bool,
    sprint: Value -> string)

  // ---------------------------------------------------------------- operators

  predicate Equals(a: Value, b: Value) {
    !a.Array? && !b.Array? && a == b
  }

  predicate OccursAt(s: string, t: string, i: int) {
    0 <= i <= |s| - |t| && s[i..i + |t|] == t
  }

  predicate Substring(s: string, t: string) {
    exists i | 0 <= i <= |s| :: OccursAt(s, t, i)
  }

  predicate Contains(claim: Value, value: Value) {
    match claim
    case Array(elems) => value in elems
    case String(s) => value.String? && Substring(s, value.s)
    case _ => false
  }

  predicate StartsWith(claim: Value, value: Value) {
    claim.String? && value.String? && value.s <= claim.s
  }

  predicate RegexMatch(rx: Engine, claim: Value, value: Value) {
    value.String? && rx.compiles(value.s) &&
    match claim
    case String(s) => rx.matches(value.s, s)
    case Array(elems) => exists e :: e in elems && e.String? && rx.matches(value.s, e.s)
    case _ => rx.matches(value.s, rx.sprint(claim))
  }

  predicate Eval(rx: Engine, op: string, claim: Value, value: Value) {
    match op
    case "equals" => Equals(claim, value)
    case "contains" => Contains(claim, value)
    case "starts_with" => StartsWith(claim, value)
    case "regex" => RegexMatch(rx, claim, value)
    case _ => false
  }

  /** What each operator asks of a string claim, in terms of the text alone. */
  lemma OperatorsOnStrings(rx: Engine, s: string, value: Value)
    ensures Eval(rx, "equals", String(s), value) <==> value == String(s)
    ensures Eval(rx, "starts_with", String(s), value)
            <==> exists t, rest :: value == String(t) && s == t + rest
    ensures Eval(rx, "contains", String(s), value)
            <==> exists t, before, rest :: value == String(t) && s == before + t + rest
    ensures Eval(rx, "regex", String(s), value)
            <==> exists t :: value == String(t) && rx.compiles(t) && rx.matches(t, s)
  {
    if StartsWith(String(s), value) { assert s == value.s + s[|value.s|..]; }
    if Contains(String(s), value) {
      var i :| 0 <= i <= |s| && OccursAt(s, value.s, i);
      assert s == s[..i] + value.s + s[i + |value.s|..];
    }
    forall t, before, rest | s == before + t + rest ensures Substring(s, t) {
      assert s[|before|..|before| + |t|] == t;
      assert OccursAt(s, t, |before|);
    }
  }

  /** On other claims: equality of kind and value, and patterns against the printed form. */
  lemma OperatorsOnOthers(rx: Engine, claim: Value, value: Value)
    requires !claim.String? && !claim.Array?
    ensures Eval(rx, "equals", claim, value) <==> claim == value
    ensures !Eval(rx, "contains", claim, value) && !Eval(rx, "starts_with", claim, value)
    ensures Eval(rx, "regex", claim, value)
            <==> exists t :: value == String(t) && rx.compiles(t) && rx.matches(t, rx.sprint(claim))
  {
    if RegexMatch(rx, claim, value) { assert value == String(value.s); }
  }

  lemma UnknownOperator(rx: Engine, op: string, claim: Value, value: Value)
    requires op !in {"equals", "contains", "starts_with", "regex"}
    ensures !Eval(rx, op, claim, value)
  {
  }

  /** On string claims the literal operators are ordered by strength, and a claim passes its own value. */
  lemma OperatorStrength(rx: Engine, claim: Value, value: Value)
    requires claim.String?
    ensures Eval(rx, "equals", claim, value) ==> Eval(rx, "starts_with", claim, value)
    ensures Eval(rx, "starts_with", claim, value) ==> Eval(rx, "contains", claim, value)
    ensures Eval(rx, "contains", claim, value) && Eval(rx, "contains", value, claim) ==>
              Eval(rx, "equals", claim, value)
    ensures Eval(rx, "equals", claim, claim)
  {
    if Contains(claim, value) && Contains(value, claim) {
      assert claim.s == value.s;
    }
    if StartsWith(claim, value) { assert OccursAt(claim.s, value.s, 0); }
  }

  /**
   On array claims contains holds when the value is an element, regex when it holds of a string
   element, and the other operators never do.
   */
  lemma OperatorsOnArrays(rx: Engine, elems: seq<Value>, value: Value)
    ensures Eval(rx, "regex", Array(elems), value)
            <==> exists i :: 0 <= i < |elems| && elems[i].String? && Eval(rx, "regex", elems[i], value)
    ensures Eval(rx, "contains", Array(elems), value) <==> exists i :: 0 <= i < |elems| && elems[i] == value
    ensures !value.Array? ==>
              (Eval(rx, "contains", Array(elems), value)
               <==> exists i :: 0 <= i < |elems| && Eval(rx, "equals", elems[i], value))
    ensures !Eval(rx, "equals", Array(elems), value) && !Eval(rx, "starts_with", Array(elems), value)
  {
    if Eval(rx, "regex", Array(elems), value) {
      var e :| e in elems && e.String? && rx.matches(value.s, e.s);
      var i :| 0 <= i < |elems| && elems[i] == e;
      assert Eval(rx, "regex", elems[i], value);
    }
    if value in elems && !value.Array? {
      var i :| 0 <= i < |elems| && elems[i] == value;
      assert Eval(rx, "equals", elems[i], value);
    }
  }

  // ---------------------------------------------------------------- filters and role rules

  /** One rule on one claim set; a path that does not resolve never matches. */
  predicate Matches(rx: Engine, c: Object, path: string, op: string, value: Value) {
    var r := Resolve(c, path);
    r.Some? && Eval(rx, op, r.value, value)
  }

  lemma MatchesIff(rx: Engine, c: Object, path: string, op: string, value: Value)
    ensures Matches(rx, c, path, op, value) <==> exists v :: Resolve(c, path) == Some(v) && Eval(rx, op, v, value)
  {
    hide Resolve, Eval;
    if Matches(rx, c, path, op, value) { assert Resolve(c, path) == Some(Resolve(c, path).value); }
  }

  /** Short-circuiting gate: true when every filter passes. */
  function EvaluateFilters(rx: Engine, c: Object, filters: seq<ClaimFilter>): bool {
    if filters == [] then true
    else
      var f := filters[0];
      match Resolve(c, f.path)
      case None => false
      case Some(v) => Eval(rx, f.op, v, f.value) && EvaluateFilters(rx, c, filters[1..])
  }

  datatype FilterTrace = FilterTrace(
    index: int, filter: ClaimFilter, claimValue: Value, claimFound: bool, isMatch: bool)

  /** The trace tells of each filter, in order, what it found and whether it matched. */
  ghost predicate Traced(rx: Engine, c: Object, filters: seq<ClaimFilter>, trace: seq<FilterTrace>) {
    && |trace| == |filters|
    && forall i :: 0 <= i < |filters| ==>
         && trace[i].index == i && trace[i].filter == filters[i]
         && trace[i].claimFound == Resolve(c, filters[i].path).Some?
         && trace[i].claimValue == (if trace[i].claimFound then Resolve(c, filters[i].path).value else Null)
         && trace[i].isMatch == Matches(rx, c, filters[i].path, filters[i].op, filters[i].value)
  }

  lemma TracedThen(rx: Engine, c: Object, filters: seq<ClaimFilter>, trace: seq<FilterTrace>, t: FilterTrace)
    requires Traced(rx, c, filters, trace) && t.index == |filters|
    requires t.claimFound == Resolve(c, t.filter.path).Some?
    requires t.claimValue == if t.claimFound then Resolve(c, t.filter.path).value else Null
    requires t.isMatch == Matches(rx, c, t.filter.path, t.filter.op, t.filter.value)
    ensures Traced(rx, c, filters + [t.filter], trace + [t])
  {
    hide Resolve, Matches;
  }

  /** Tracing gate for the admin simulator: runs every filter, and records each outcome. */
  method TraceFilters(rx: Engine, c: Object, filters: seq<ClaimFilter>)
    returns (trace: seq<FilterTrace>, allPass: bool)
    ensures Traced(rx, c, filters, trace)
    ensures allPass <==> forall t :: t in trace ==> t.isMatch
    ensures allPass == EvaluateFilters(rx, c, filters)
  {
    hide Resolve, Eval, EvaluateFilters;
    trace, allPass := [], true;
    for i := 0 to |filters|
      invariant Traced(rx, c, filters[..i], trace)
      invariant allPass <==> forall j :: 0 <= j < i ==> trace[j].isMatch
    {
      var f := filters[i];
      var v, found := ResolvePath(c, f.path);
      var isMatch := found && Eval(rx, f.op, v, f.value);
      if !isMatch {
        allPass := false;
      }
      TracedThen(rx, c, filters[..i], trace, FilterTrace(i, f, v, found, isMatch));
      trace := trace + [FilterTrace(i, f, v, found, isMatch)];
      assert filters[..i] + [f] == filters[..i + 1];
    }
    assert filters[..|filters|] == filters;
    FiltersConjunction(rx, c, filters);
    assert allPass ==> forall f :: f in filters ==> Matches(rx, c, f.path, f.op, f.value);
    assert !allPass ==> exists j :: 0 <= j < |filters| && !trace[j].isMatch && filters[j] in filters;
  }

  /** The short-circuiting gate is the conjunction over all filters. */
  lemma {:induction false} FiltersConjunction(rx: Engine, c: Object, filters: seq<ClaimFilter>)
    ensures EvaluateFilters(rx, c, filters)
            <==> forall f :: f in filters ==> Matches(rx, c, f.path, f.op, f.value)
  {
    if filters != [] {
      FiltersConjunction(rx, c, filters[1..]);
      assert forall f :: f in filters <==> f == filters[0] || f in filters[1..];
    }
  }

  /** Order and grouping of filters do not matter. */
  lemma FiltersReorder(rx: Engine, c: Object, fs: seq<ClaimFilter>, gs: seq<ClaimFilter>)
    ensures multiset(fs) == multiset(gs) ==> EvaluateFilters(rx, c, fs) == EvaluateFilters(rx, c, gs)
    ensures EvaluateFilters(rx, c, fs + gs) == (EvaluateFilters(rx, c, fs) && EvaluateFilters(rx, c, gs))
  {
    FiltersConjunction(rx, c, fs);
    FiltersConjunction(rx, c, gs);
    FiltersConjunction(rx, c, fs + gs);
    assert forall f :: f in fs <==> f in multiset(fs);
    assert forall f :: f in gs <==> f in multiset(gs);
    assert forall f :: f in fs + gs <==> f in fs || f in gs;
  }

  /** Role of the first matching rule and its index, or ("user", -1). */
  function TraceRole(rx: Engine, c: Object, rules: seq<RoleRule>): (string, int) {
    TraceRoleFrom(rx, c, rules, 0)
  }

  function TraceRoleFrom(rx: Engine, c: Object, rules: seq<RoleRule>, i: nat): (string, int)
    requires i <= |rules|
    decreases |rules| - i
  {
    if i == |rules| then ("user", -1)
    else
      var r := rules[i];
      match Resolve(c, r.path)
      case None => TraceRoleFrom(rx, c, rules, i + 1)
      case Some(v) =>
        if Eval(rx, r.op, v, r.value) then (r.role, i) else TraceRoleFrom(rx, c, rules, i + 1)
  }

  function ResolveRole(rx: Engine, c: Object, rules: seq<RoleRule>): string {
    TraceRole(rx, c, rules).0
  }

  predicate RuleMatches(rx: Engine, c: Object, r: RoleRule) {
    Matches(rx, c, r.path, r.op, r.value)
  }

  lemma {:induction false} TraceRoleFromIsFirst(rx: Engine, c: Object, rules: seq<RoleRule>, i: nat)
    requires i <= |rules|
    ensures var (role, k) := TraceRoleFrom(rx, c, rules, i);
            || (k == -1 && role == "user" && forall j :: i <= j < |rules| ==> !RuleMatches(rx, c, rules[j]))
            || (i <= k < |rules| && role == rules[k].role && RuleMatches(rx, c, rules[k])
                && forall j :: i <= j < k ==> !RuleMatches(rx, c, rules[j]))
    decreases |rules| - i
  {
    hide Eval, Resolve;
    if i < |rules| { TraceRoleFromIsFirst(rx, c, rules, i + 1); }
  }

  /** First match wins: the least matching index decides, none means "user". */
  lemma RoleIsFirstMatch(rx: Engine, c: Object, rules: seq<RoleRule>)
    ensures var (role, k) := TraceRole(rx, c, rules);
            || (k == -1 && role == "user" && forall r :: r in rules ==> !RuleMatches(rx, c, r))
            || (0 <= k < |rules| && role == rules[k].role && RuleMatches(rx, c, rules[k])
                && forall j :: 0 <= j < k ==> !RuleMatches(rx, c, rules[j]))
  {
    TraceRoleFromIsFirst(rx, c, rules, 0);
  }

  /** Whatever rule list puts a match at index k and none before it gives that rule's role. */
  lemma FirstMatchDecides(rx: Engine, c: Object, rules: seq<RoleRule>, k: nat)
    requires k < |rules| && RuleMatches(rx, c, rules[k])
    requires forall j :: 0 <= j < k ==> !RuleMatches(rx, c, rules[j])
    ensures TraceRole(rx, c, rules) == (rules[k].role, k)
  {
    RoleIsFirstMatch(rx, c, rules);
    assert rules[k] in rules;
  }

  /** Rules appended after a match change nothing; after no match they alone decide. */
  lemma RoleAppend(rx: Engine, c: Object, rules: seq<RoleRule>, more: seq<RoleRule>)
    ensures TraceRole(rx, c, rules).1 >= 0 ==> TraceRole(rx, c, rules + more) == TraceRole(rx, c, rules)
    ensures TraceRole(rx, c, rules).1 < 0 ==> ResolveRole(rx, c, rules + more) == ResolveRole(rx, c, more)
  {
    hide RuleMatches, TraceRoleFrom;
    RoleIsFirstMatch(rx, c, rules);
    RoleIsFirstMatch(rx, c, more);
    var k, m, all := TraceRole(rx, c, rules).1, TraceRole(rx, c, more).1, rules + more;
    if k >= 0 {
      FirstMatchDecides(rx, c, all, k);
    } else if m >= 0 {
      FirstMatchDecides(rx, c, all, |rules| + m);
    } else {
      RoleIsFirstMatch(rx, c, all);
    }
  }

  // ---------------------------------------------------------------- identity

  datatype Identity = Identity(subject: string, email: string, displayName: string)

  method DeriveIdentity(c: Object) returns (id: Identity)
    ensures id == IdentityOf(c)
  {
    var email := StringAt(c, "email");
    var name := StringAt(c, "name");
    if name == "" {
      var first, last := StringAt(c, "given_name"), StringAt(c, "family_name");
      if first != "" && last != "" {
        name := first + " " + last;
      } else if first != "" {
        name := first;
      } else if last != "" {
        name := last;
      } else {
        name := email;
      }
    }
    return Identity(StringAt(c, "sub"), email, name);
  }

  /** Display name: "name", else given and family name as far as present, else the email. */
  function IdentityOf(c: Object): (id: Identity)
    ensures id.subject == StringAt(c, "sub") && id.email == StringAt(c, "email")
    ensures id.displayName == ""
            <==> forall k :: k in {"name", "given_name", "family_name", "email"} ==> StringAt(c, k) == ""
  {
    var parts := [StringAt(c, "given_name"), StringAt(c, "family_name")];
    Identity(
      StringAt(c, "sub"),
      StringAt(c, "email"),
      if StringAt(c, "name") != "" then StringAt(c, "name")
      else if parts[0] != "" && parts[1] != "" then parts[0] + " " + parts[1]
      else if parts[0] + parts[1] != "" then parts[0] + parts[1]
      else StringAt(c, "email"))
  }

  /** The display name, by the order of preference. */
  lemma DisplayName(c: Object)
    ensures var (name, first, last) := (StringAt(c, "name"), StringAt(c, "given_name"), StringAt(c, "family_name"));
            var shown := IdentityOf(c).displayName;
            && (name != "" ==> shown == name)
            && (name == "" && first != "" ==> shown == first + if last == "" then "" else " " + last)
            && (name == first == "" && last != "" ==> shown == last)
            && (name == first == last == "" ==> shown == StringAt(c, "email"))
  {
    var first, last := StringAt(c, "given_name"), StringAt(c, "family_name");
    assert first + "" == first && "" + last == last && first + " " + last == first + (" " + last);
  }

  /** True when the claim set carries email_verified == true. */
  predicate EmailVerified(c: Object) {
    "email_verified" in c && c["email_verified"] == Bool(true)
  }
}

/** `${name}` expansion in driver definitions (internal/engine/driver.go): one `ReplaceAll` per
    variable, in Go's random map order.

    A template is read as pieces: literal text and variable references. For variables with plain names
    the sequential replacement is one simultaneous substitution, whatever the order, exactly when no
    value can take part in another variable's token. */
module VariableExpansion {
  predicate StartsWith(s: string, p: string) { |p| <= |s| && s[..|p|] == p }

  /** `strings.ReplaceAll`: leftmost matches, without overlap. */
  function ReplaceAll(s: string, what: string, with: string): string
    requires what != ""
  {
    if s == "" then ""
    else if StartsWith(s, what) then with + ReplaceAll(s[|what|..], what, with)
    else [s[0]] + ReplaceAll(s[1..], what, with)
  }

  function Token(name: string): string { "${" + name + "}" }

  type Vars = map<string, string>

  /** Every key in turn. */
  function ExpandInOrder(s: string, order: seq<string>, vars: Vars): string
    requires forall k :: k in order ==> k in vars
  {
    if order == [] then s
    else
      var last := order[|order| - 1];
      ReplaceAll(ExpandInOrder(s, order[..|order| - 1], vars), Token(last), vars[last])
  }

  ghost predicate Distinct(order: seq<string>) { forall i, j :: 0 <= i < j < |order| ==> order[i] != order[j] }

  ghost predicate Enumerates(order: seq<string>, vars: Vars) {
    Distinct(order) && forall k :: k in order <==> k in vars
  }

  /** The loop over the variable map; `:|` is Go's arbitrary iteration order. */
  method ExpandVariables(s: string, vars: Vars) returns (result: string)
    ensures exists order :: Enumerates(order, vars) && result == ExpandInOrder(s, order, vars)
    ensures forall t :: Sound(t, vars) && Render(t) == s ==> result == Render(Substituted(t, vars))
  {
    result := s;
    ghost var order := [];
    var todo := vars.Keys;
    while todo != {}
      invariant todo <= vars.Keys
      invariant Distinct(order) && forall k :: k in order <==> k in vars && k !in todo
      invariant result == ExpandInOrder(s, order, vars)
    {
      var key :| key in todo;
      result := ReplaceAll(result, Token(key), vars[key]);
      assert (order + [key])[..|order|] == order;
      order := order + [key];
      todo := todo - {key};
    }
    assert Enumerates(order, vars);
    forall t | Sound(t, vars) && Render(t) == s ensures result == Render(Substituted(t, vars)) {
      AnyOrderIsSimultaneous(t, order, vars);
    }
  }

  /** A driver's slices are expanded where they stand. */
  method ExpandInPlace(fields: array<string>, vars: Vars)
    modifies fields
    ensures forall i, t :: 0 <= i < fields.Length && Sound(t, vars) && Render(t) == old(fields[i]) ==>
              fields[i] == Render(Substituted(t, vars))
  {
    for i := 0 to fields.Length
      invariant forall j, t :: 0 <= j < i && Sound(t, vars) && Render(t) == old(fields[j]) ==>
                  fields[j] == Render(Substituted(t, vars))
      invariant forall j :: i <= j < fields.Length ==> fields[j] == old(fields[j])
    {
      var expanded := ExpandVariables(fields[i], vars);
      fields[i] := expanded;
    }
  }

  // Templates.

  datatype Piece = Lit(text: string) | Ref(name: string)

  type Template = seq<Piece>

  function RenderPiece(p: Piece): string {
    match p
    case Lit(text) => text
    case Ref(name) => Token(name)
  }

  function Render(t: Template): string {
    if t == [] then "" else RenderPiece(t[0]) + Render(t[1..])
  }

  /** Every known reference replaced at once. */
  function Substituted(t: Template, vars: Vars): Template {
    seq(|t|, i requires 0 <= i < |t| => if t[i].Ref? && t[i].name in vars then Lit(vars[t[i].name]) else t[i])
  }

  /** Free of `$`, `{` and `}`. */
  predicate CleanName(name: string) {
    forall i :: 0 <= i < |name| ==> name[i] !in {'$', '{', '}'}
  }

  predicate CleanNames(vars: Vars) { forall k :: k in vars ==> CleanName(k) }

  predicate Contains(text: string, token: string) { exists k :: 0 <= k < |text| && token <= text[k..] }

  /** The text contains the token or ends in a beginning of it, which other text may complete. */
  predicate Meets(text: string, token: string) {
    exists k :: 0 <= k < |text| && (token <= text[k..] || text[k..] <= token)
  }

  /** A variable that expands to its own reference changes nothing. */
  predicate Moves(vars: Vars, name: string) { name in vars && vars[name] != Token(name) }

  /** Nothing in the template but its references is, or may become, a reference to `name`. */
  predicate Plain(t: Template, name: string) {
    forall i :: 0 <= i < |t| ==> PlainPiece(t[i], name, i == |t| - 1)
  }

  predicate PlainPiece(p: Piece, name: string, last: bool) {
    match p
    case Ref(other) => CleanName(other)
    case Lit(text) => !Contains(text, Token(name)) && (!last ==> !Meets(text, Token(name)))
  }

  ghost predicate WellFormed(t: Template, vars: Vars) {
    && (forall i :: 0 <= i < |t| && t[i].Ref? ==> CleanName(t[i].name))
    && forall name :: Moves(vars, name) ==> Plain(t, name)
  }

  /** No value can take part in the token of another variable. */
  ghost predicate Uncrossed(vars: Vars) {
    forall a, b :: a in vars && b in vars && Moves(vars, b) && a != b ==> !Meets(vars[a], Token(b))
  }

  /** Nor in the token of its own. */
  ghost predicate Settled(vars: Vars) {
    forall a, b :: a in vars && b in vars && Moves(vars, b) ==> !Meets(vars[a], Token(b))
  }

  ghost predicate Sound(t: Template, vars: Vars) { CleanNames(vars) && Uncrossed(vars) && WellFormed(t, vars) }

  /** Templates whose text has no `$` are well-formed, whatever their length and their values. */
  lemma TextWithoutDollarIsWellFormed(t: Template, vars: Vars)
    requires CleanNames(vars)
    requires forall i :: 0 <= i < |t| ==> if t[i].Ref? then CleanName(t[i].name) else '$' !in t[i].text
    ensures WellFormed(t, vars)
  {
    hide Meets, Contains, CleanName;
    forall name | Moves(vars, name)
      ensures Plain(t, name)
    {
      forall i | 0 <= i < |t|
        ensures PlainPiece(t[i], name, i == |t| - 1)
      {
        if t[i].Lit? {
          WithoutDollar(t[i].text, name);
        }
      }
    }
  }

  // One replacement.

  lemma NoTokenHere(text: string, rest: string, token: string)
    requires text != "" && !Contains(text, token) && (rest == "" || !Meets(text, token))
    ensures !StartsWith(text + rest, token)
  {
    var s := text + rest;
    assert text[0..] == text;
    assert |token| <= |text| ==> s[..|token|] == text[..|token|];
    assert |text| < |token| <= |s| ==> s[..|token|][..|text|] == text;
  }

  lemma TailHasNoMore(text: string, token: string)
    requires text != ""
    ensures Contains(text[1..], token) ==> Contains(text, token)
    ensures Meets(text[1..], token) ==> Meets(text, token)
  {
    forall k | 0 <= k < |text[1..]|
      ensures text[1..][k..] == text[k + 1..]
    {
    }
    if k :| 0 <= k < |text[1..]| && token <= text[1..][k..] {
      assert token <= text[k + 1..];
    }
    if k :| 0 <= k < |text[1..]| && (token <= text[1..][k..] || text[1..][k..] <= token) {
      assert token <= text[k + 1..] || text[k + 1..] <= token;
    }
  }

  /** Plain text before `rest` is passed over. */
  lemma {:induction false} SkipText(text: string, rest: string, token: string, value: string)
    requires token != "" && !Contains(text, token) && (rest == "" || !Meets(text, token))
    ensures ReplaceAll(text + rest, token, value) == text + ReplaceAll(rest, token, value)
  {
    hide Contains, Meets, StartsWith;
    if text == "" {
      assert text + rest == rest;
    } else {
      var s := text + rest;
      assert s[1..] == text[1..] + rest && s[0] == text[0];
      NoTokenHere(text, rest, token);
      TailHasNoMore(text, token);
      SkipText(text[1..], rest, token, value);
    }
  }

  lemma WithoutDollar(text: string, name: string)
    requires '$' !in text
    ensures !Meets(text, Token(name)) && !Contains(text, Token(name))
  {
    forall k | 0 <= k < |text|
      ensures !(Token(name) <= text[k..]) && !(text[k..] <= Token(name))
    {
      assert text[k..][0] == text[k] && Token(name)[0] == '$';
    }
  }

  lemma OtherTokenDiffers(other: string, name: string, rest: string)
    requires CleanName(other) && CleanName(name) && other != name
    ensures !StartsWith(Token(other) + rest, Token(name))
  {
    var s := Token(other) + rest;
    if |s| >= |Token(name)| {
      var p := s[..|Token(name)|];
      if |name| < |other| {
        assert p[|name| + 2] == other[|name|] && Token(name)[|name| + 2] == '}';
      } else if |other| < |name| {
        assert p[|other| + 2] == '}' && Token(name)[|other| + 2] == name[|other|];
      } else {
        var i :| 0 <= i < |name| && other[i] != name[i];
        assert p[i + 2] == other[i] && Token(name)[i + 2] == name[i];
      }
    }
  }

  lemma SkipOtherToken(other: string, name: string, rest: string, value: string)
    requires CleanName(other) && CleanName(name) && other != name
    ensures ReplaceAll(Token(other) + rest, Token(name), value) == Token(other) + ReplaceAll(rest, Token(name), value)
  {
    OtherTokenDiffers(other, name, rest);
    var body := "{" + other + "}";
    assert Token(other) == "$" + body;
    assert (Token(other) + rest)[1..] == body + rest;
    WithoutDollar(body, name);
    SkipText(body, rest, Token(name), value);
  }

  lemma MeetToken(name: string, rest: string, value: string)
    ensures ReplaceAll(Token(name) + rest, Token(name), value) == value + ReplaceAll(rest, Token(name), value)
  {
    assert (Token(name) + rest)[..|Token(name)|] == Token(name);
    assert (Token(name) + rest)[|Token(name)|..] == rest;
  }

  /** One ReplaceAll replaces exactly the references to its variable. */
  lemma {:induction false} ReplaceIsSubstitution(t: Template, name: string, value: string)
    requires Plain(t, name) && CleanName(name)
    ensures ReplaceAll(Render(t), Token(name), value) == Render(Substituted(t, map[name := value]))
  {
    hide Contains, Meets, CleanName;
    var one := map[name := value];
    if t != [] {
      assert forall i :: 0 <= i < |t[1..]| ==> t[1..][i] == t[i + 1];
      ReplaceIsSubstitution(t[1..], name, value);
      assert Substituted(t, one)[1..] == Substituted(t[1..], one);
      assert PlainPiece(t[0], name, 0 == |t| - 1);
      match t[0]
      case Lit(text) =>
        assert |t| == 1 ==> Render(t[1..]) == "";
        SkipText(text, Render(t[1..]), Token(name), value);
      case Ref(other) =>
        if other == name {
          MeetToken(name, Render(t[1..]), value);
        } else {
          SkipOtherToken(other, name, Render(t[1..]), value);
        }
    }
  }

  lemma {:induction false} ReplaceBySelf(s: string, token: string)
    requires token != ""
    ensures ReplaceAll(s, token, token) == s
  {
    if s != "" {
      if StartsWith(s, token) {
        ReplaceBySelf(s[|token|..], token);
        assert s == token + s[|token|..];
      } else {
        ReplaceBySelf(s[1..], token);
      }
    }
  }

  /** A replacement by something else shows, unless there is nothing to replace. */
  lemma {:induction false} ReplaceShows(s: string, token: string, value: string)
    requires token != "" && value != token
    ensures |value| < |token| ==> |ReplaceAll(s, token, value)| <= |s|
    ensures |value| > |token| ==> |ReplaceAll(s, token, value)| >= |s|
    ensures |value| == |token| ==> |ReplaceAll(s, token, value)| == |s|
    ensures Contains(s, token) ==> ReplaceAll(s, token, value) != s
    ensures Contains(s, token) && |value| < |token| ==> |ReplaceAll(s, token, value)| < |s|
    ensures Contains(s, token) && |value| > |token| ==> |ReplaceAll(s, token, value)| > |s|
  {
    if s != "" {
      var r := ReplaceAll(s, token, value);
      if StartsWith(s, token) {
        ReplaceShows(s[|token|..], token, value);
        assert |value| == |token| ==> r[..|token|] == value;
      } else {
        ReplaceShows(s[1..], token, value);
        assert r[1..] == ReplaceAll(s[1..], token, value);
        if k :| 0 <= k < |s| && token <= s[k..] {
          assert s[0..] == s;
          assert s[1..][k - 1..] == s[k..];
        }
      }
    }
  }

  // All replacements.

  function Restricted(vars: Vars, order: seq<string>): Vars {
    map k | k in vars && k in order :: vars[k]
  }

  lemma OneMoreVariable(t: Template, vars: Vars, init: seq<string>, last: string)
    requires last in vars && last !in init
    ensures Substituted(Substituted(t, Restricted(vars, init)), map[last := vars[last]])
            == Substituted(t, Restricted(vars, init + [last]))
  {
    assert forall k :: k in Restricted(vars, init + [last]) <==> k in Restricted(vars, init) || k == last;
  }

  lemma ContainsMeets(text: string, token: string)
    ensures Contains(text, token) ==> Meets(text, token)
  {
  }

  /** What has been replaced so far stays plain for the variables still to come. */
  lemma SubstitutedIsPlain(t: Template, vars: Vars, init: seq<string>, next: string)
    requires CleanNames(vars) && Uncrossed(vars) && WellFormed(t, vars) && Moves(vars, next) && next !in init
    ensures Plain(Substituted(t, Restricted(vars, init)), next)
  {
    hide Contains, Meets, CleanName;
    var u := Substituted(t, Restricted(vars, init));
    forall i | 0 <= i < |u|
      ensures PlainPiece(u[i], next, i == |u| - 1)
    {
      assert PlainPiece(t[i], next, i == |t| - 1);
      if t[i].Ref? && t[i].name in Restricted(vars, init) {
        ContainsMeets(vars[t[i].name], Token(next));
      }
    }
  }

  lemma {:induction false} RenderIsLocal(t: Template, u: Template)
    requires |t| == |u| && forall i :: 0 <= i < |t| ==> RenderPiece(t[i]) == RenderPiece(u[i])
    ensures Render(t) == Render(u)
  {
    if t != [] {
      RenderIsLocal(t[1..], u[1..]);
    }
  }

  lemma {:induction false} SequenceIsSubstitution(t: Template, order: seq<string>, vars: Vars)
    requires CleanNames(vars) && Uncrossed(vars) && WellFormed(t, vars)
    requires Distinct(order) && forall k :: k in order ==> k in vars
    ensures ExpandInOrder(Render(t), order, vars) == Render(Substituted(t, Restricted(vars, order)))
  {
    if order == [] {
      assert Substituted(t, Restricted(vars, [])) == t;
    } else {
      hide Uncrossed, WellFormed, Plain, ReplaceAll;
      var init, last := order[..|order| - 1], order[|order| - 1];
      assert order == init + [last];
      SequenceIsSubstitution(t, init, vars);
      OneMoreVariable(t, vars, init, last);
      var u := Substituted(t, Restricted(vars, init));
      if Moves(vars, last) {
        SubstitutedIsPlain(t, vars, init, last);
        ReplaceIsSubstitution(u, last, vars[last]);
      } else {
        ReplaceBySelf(Render(u), Token(last));
        RenderIsLocal(u, Substituted(u, map[last := vars[last]]));
      }
    }
  }

  /** Sequential expansion in any order is one simultaneous substitution. */
  lemma {:induction false} AnyOrderIsSimultaneous(t: Template, order: seq<string>, vars: Vars)
    requires Sound(t, vars) && Enumerates(order, vars)
    ensures ExpandInOrder(Render(t), order, vars) == Render(Substituted(t, vars))
  {
    SequenceIsSubstitution(t, order, vars);
    assert Restricted(vars, order) == vars;
  }

  // Exactly when the order does not matter.

  ghost predicate OrderFree(vars: Vars) {
    forall t, o1, o2 :: WellFormed(t, vars) && Enumerates(o1, vars) && Enumerates(o2, vars) ==>
      ExpandInOrder(Render(t), o1, vars) == ExpandInOrder(Render(t), o2, vars)
  }

  ghost predicate Idempotent(vars: Vars) {
    forall t, o1, o2 :: WellFormed(t, vars) && Enumerates(o1, vars) && Enumerates(o2, vars) ==>
      ExpandInOrder(ExpandInOrder(Render(t), o1, vars), o2, vars) == ExpandInOrder(Render(t), o1, vars)
  }

  /** Variables the template does not mention are passed over. */
  lemma {:induction false} SkipVariables(t: Template, order: seq<string>, vars: Vars)
    requires CleanNames(vars) && forall k :: k in order ==> k in vars
    requires forall k :: k in order && Moves(vars, k) ==> Plain(t, k) && Ref(k) !in t
    ensures ExpandInOrder(Render(t), order, vars) == Render(t)
  {
    if order != [] {
      hide Plain, ReplaceAll, Render, CleanName;
      var init, last := order[..|order| - 1], order[|order| - 1];
      SkipVariables(t, init, vars);
      if Moves(vars, last) {
        ReplaceIsSubstitution(t, last, vars[last]);
        assert Substituted(t, map[last := vars[last]]) == t;
      } else {
        ReplaceBySelf(Render(t), Token(last));
      }
    }
  }

  lemma {:induction false} Enumeration(keys: set<string>) returns (order: seq<string>)
    ensures Distinct(order) && forall k :: k in order <==> k in keys
  {
    if keys == {} {
      order := [];
    } else {
      var k :| k in keys;
      var rest := Enumeration(keys - {k});
      order := rest + [k];
    }
  }

  /** The text that completes what `value` begins of the token; free of `$`. */
  lemma Completion(value: string, name: string) returns (rest: string)
    requires CleanName(name) && Meets(value, Token(name))
    ensures '$' !in rest && Contains(value + rest, Token(name))
  {
    var k :| 0 <= k < |value| && (Token(name) <= value[k..] || value[k..] <= Token(name));
    rest := if Token(name) <= value[k..] then "" else Token(name)[|value| - k..];
    assert (value + rest)[k..] == value[k..] + rest;
    assert Token(name) <= (value + rest)[k..];
  }

  /** The reference whose value is to be completed, and the text after it. */
  lemma ReferenceAndText(a: string, rest: string, vars: Vars)
    requires CleanName(a) && '$' !in rest
    ensures WellFormed([Ref(a), Lit(rest)], vars)
    ensures Render([Ref(a), Lit(rest)]) == Token(a) + rest
    ensures forall k :: Plain([Ref(a), Lit(rest)], k)
  {
    var t := [Ref(a), Lit(rest)];
    assert t[1..] == [Lit(rest)] && t[1..][1..] == [];
    assert Render(t[1..]) == rest + "" == rest;
    forall k
      ensures Plain(t, k)
    {
      WithoutDollar(rest, k);
    }
  }

  lemma ExpandLast(s: string, init: seq<string>, last: string, vars: Vars)
    requires last in vars && forall k :: k in init ==> k in vars
    ensures ExpandInOrder(s, init + [last], vars) == ReplaceAll(ExpandInOrder(s, init, vars), Token(last), vars[last])
  {
    assert (init + [last])[..|init|] == init;
  }

  /** A value that can take part in another variable's token makes the order matter: `${a}` followed by
      the completing text. */
  lemma CrossedValueBreaksOrder(vars: Vars, a: string, b: string)
    returns (t: Template, o1: seq<string>, o2: seq<string>)
    requires CleanNames(vars) && a in vars && Moves(vars, b) && a != b && Meets(vars[a], Token(b))
    ensures WellFormed(t, vars) && Enumerates(o1, vars) && Enumerates(o2, vars)
    ensures ExpandInOrder(Render(t), o1, vars) != ExpandInOrder(Render(t), o2, vars)
  {
    hide Meets, ReplaceAll, ExpandInOrder, WellFormed, Plain, Render;
    var rest := Completion(vars[a], b);
    t := [Ref(a), Lit(rest)];
    ReferenceAndText(a, rest, vars);
    var others := Enumeration(vars.Keys - {a, b});
    SkipVariables(t, others, vars);
    SkipVariables(t, others + [b], vars);
    ExpandLast(Render(t), others, a, vars);
    ExpandLast(Render(t), others + [b], a, vars);
    ExpandLast(Render(t), others + [a], b, vars);
    o1, o2 := others + [b] + [a], others + [a] + [b];
    WithoutDollar(rest, a);
    MeetToken(a, rest, vars[a]);
    assert rest + "" == rest;
    SkipText(rest, "", Token(a), vars[a]);
    assert ReplaceAll("", Token(a), vars[a]) == "" by { EmptyStays(Token(a), vars[a]); }
    ReplaceShows(vars[a] + rest, Token(b), vars[b]);
  }

  lemma EmptyStays(token: string, value: string)
    requires token != ""
    ensures ReplaceAll("", token, value) == ""
  {
  }

  /** For variables with plain names, every order gives the same result on every well-formed template
      if and only if no value contains the token of another variable or ends in a beginning of it, a
      variable that expands to its own reference aside. */
  lemma OrderFreeIffUncrossed(vars: Vars)
    requires CleanNames(vars)
    ensures OrderFree(vars) <==> Uncrossed(vars)
  {
    if Uncrossed(vars) {
      forall t, o1, o2 | WellFormed(t, vars) && Enumerates(o1, vars) && Enumerates(o2, vars)
        ensures ExpandInOrder(Render(t), o1, vars) == ExpandInOrder(Render(t), o2, vars)
      {
        AnyOrderIsSimultaneous(t, o1, vars);
        AnyOrderIsSimultaneous(t, o2, vars);
      }
    } else {
      var a, b :| a in vars && Moves(vars, b) && a != b && Meets(vars[a], Token(b));
      var t, o1, o2 := CrossedValueBreaksOrder(vars, a, b);
    }
  }

  /** What has been substituted is well-formed again and has no known reference left. */
  lemma SubstitutedIsWellFormed(t: Template, vars: Vars)
    requires CleanNames(vars) && Settled(vars) && WellFormed(t, vars)
    ensures WellFormed(Substituted(t, vars), vars) && Substituted(Substituted(t, vars), vars) == Substituted(t, vars)
  {
    hide Contains, Meets, CleanName;
    var u := Substituted(t, vars);
    forall name | Moves(vars, name)
      ensures Plain(u, name)
    {
      forall i | 0 <= i < |u|
        ensures PlainPiece(u[i], name, i == |u| - 1)
      {
        assert PlainPiece(t[i], name, i == |t| - 1);
        if t[i].Ref? && t[i].name in vars {
          ContainsMeets(vars[t[i].name], Token(name));
        }
      }
    }
  }

  /** A value that can take part in its own token changes again on a second expansion. */
  lemma OwnTokenBreaksIdempotence(vars: Vars, a: string) returns (t: Template, order: seq<string>)
    requires CleanNames(vars) && Uncrossed(vars) && Moves(vars, a) && Meets(vars[a], Token(a))
    ensures WellFormed(t, vars) && Enumerates(order, vars)
    ensures ExpandInOrder(ExpandInOrder(Render(t), order, vars), order, vars) != ExpandInOrder(Render(t), order, vars)
  {
    hide Meets, ReplaceAll, ExpandInOrder, WellFormed, Plain, Render;
    var rest := Completion(vars[a], a);
    t := [Ref(a), Lit(rest)];
    ReferenceAndText(a, rest, vars);
    var others := Enumeration(vars.Keys - {a});
    order := others + [a];
    SkipVariables(t, others, vars);
    ExpandLast(Render(t), others, a, vars);
    WithoutDollar(rest, a);
    MeetToken(a, rest, vars[a]);
    assert rest + "" == rest;
    SkipText(rest, "", Token(a), vars[a]);
    EmptyStays(Token(a), vars[a]);
    var s := vars[a] + rest;
    ValueAndText(vars[a], rest, others, vars);
    ExpandLast(s, others, a, vars);
    ReplaceShows(s, Token(a), vars[a]);
  }

  /** Variables whose tokens the value cannot take part in pass over it and the text after it. */
  lemma ValueAndText(value: string, rest: string, order: seq<string>, vars: Vars)
    requires CleanNames(vars) && '$' !in rest && forall k :: k in order ==> k in vars
    requires forall k :: k in order && Moves(vars, k) ==> !Meets(value, Token(k))
    ensures ExpandInOrder(value + rest, order, vars) == value + rest
  {
    var t := [Lit(value), Lit(rest)];
    assert t[1..] == [Lit(rest)] && t[1..][1..] == [];
    assert Render(t[1..]) == rest + "" == rest;
    forall k | k in order && Moves(vars, k)
      ensures Plain(t, k)
    {
      ContainsMeets(value, Token(k));
      WithoutDollar(rest, k);
    }
    SkipVariables(t, order, vars);
  }

  lemma OwnMeeting(vars: Vars) returns (a: string)
    requires Uncrossed(vars) && !Settled(vars)
    ensures Moves(vars, a) && Meets(vars[a], Token(a))
  {
    hide Meets, Token;
    var x, b :| x in vars && b in vars && Moves(vars, b) && Meets(vars[x], Token(b));
    a := b;
  }

  /** For variables with plain names, expansion may be done in any order and any number of times if and
      only if no value contains the token of any variable, its own included, or ends in a beginning of
      one, variables that expand to their own reference aside. */
  lemma StableIffSettled(vars: Vars)
    requires CleanNames(vars)
    ensures OrderFree(vars) && Idempotent(vars) <==> Settled(vars)
  {
    hide Meets;
    OrderFreeIffUncrossed(vars);
    if Settled(vars) {
      forall t, o1, o2 | WellFormed(t, vars) && Enumerates(o1, vars) && Enumerates(o2, vars)
        ensures ExpandInOrder(ExpandInOrder(Render(t), o1, vars), o2, vars) == ExpandInOrder(Render(t), o1, vars)
      {
        SubstitutedIsWellFormed(t, vars);
        AnyOrderIsSimultaneous(t, o1, vars);
        AnyOrderIsSimultaneous(Substituted(t, vars), o2, vars);
      }
    } else if Uncrossed(vars) {
      var a := OwnMeeting(vars);
      var t, order := OwnTokenBreaksIdempotence(vars, a);
    }
  }

  // And for the text of a template.

  function Two(a: string, va: string, b: string, vb: string): Vars { map[a := va, b := vb] }

  /** The literal ends in a beginning of the token, which a value may complete. */
  predicate EndsInBeginning(text: string, token: string) {
    exists k :: 0 <= k < |text| && text[k..] <= token
  }

  /** The order does not matter on `text` followed by `${a}`, whatever the two values, as long as each
      keeps clear of the other's token. */
  ghost predicate TextIsOrderFree(text: string, a: string, b: string) {
    forall va, vb :: !Meets(va, Token(b)) && !Meets(vb, Token(a)) ==>
      ReplaceAll(ReplaceAll(text + Token(a), Token(a), va), Token(b), vb)
      == ReplaceAll(ReplaceAll(text + Token(a), Token(b), vb), Token(a), va)
  }

  lemma TokenAtTheEnd(text: string, a: string, value: string)
    requires CleanName(a) && !Contains(text, Token(a))
    ensures ReplaceAll(text + Token(a), Token(a), value) == text + value
  {
    MeetToken(a, "", value);
    assert Token(a) + "" == Token(a) && value + "" == value;
    SkipUpToDollar(text, Token(a), a, value);
  }

  lemma NoTokenAcross(text: string, rest: string, name: string)
    requires CleanName(name) && text != "" && !Contains(text, Token(name)) && rest != "" && rest[0] == '$'
    ensures !StartsWith(text + rest, Token(name))
  {
    var s, token := text + rest, Token(name);
    assert text[0..] == text;
    assert |token| <= |text| ==> s[..|token|] == text[..|token|];
    assert |text| < |token| <= |s| ==> s[..|token|][|text|] == '$' && token[|text|] != '$';
  }

  /** No token runs across a `$`. */
  lemma {:induction false} SkipUpToDollar(text: string, rest: string, name: string, value: string)
    requires CleanName(name) && !Contains(text, Token(name)) && rest != "" && rest[0] == '$'
    ensures ReplaceAll(text + rest, Token(name), value) == text + ReplaceAll(rest, Token(name), value)
  {
    hide Contains, StartsWith, CleanName;
    if text == "" {
      assert text + rest == rest;
    } else {
      var s := text + rest;
      assert s[1..] == text[1..] + rest && s[0] == text[0];
      NoTokenAcross(text, rest, name);
      TailHasNoMore(text, Token(name));
      SkipUpToDollar(text[1..], rest, name, value);
    }
  }

  /** Text right before a reference is harmless whatever the values if and only if it does not end in a
      beginning of another variable's token: a `$`, say. */
  lemma TextBeforeReferenceIsSafeIff(text: string, a: string, b: string)
    requires CleanName(a) && CleanName(b) && a != b && !Contains(text, Token(a)) && !Contains(text, Token(b))
    ensures TextIsOrderFree(text, a, b) <==> !EndsInBeginning(text, Token(b))
  {
    hide ReplaceAll, Contains, Meets;
    forall va, vb
      ensures ReplaceAll(text + Token(a), Token(a), va) == text + va
      ensures ReplaceAll(text + Token(a), Token(b), vb) == text + Token(a)
    {
      TokenAtTheEnd(text, a, va);
      SkipUpToDollar(text, Token(a), b, vb);
      assert Token(a) + "" == Token(a);
      SkipOtherToken(a, b, "", vb);
      EmptyStays(Token(b), vb);
    }
    if EndsInBeginning(text, Token(b)) {
      var va := CompletingValue(text, b);
      NothingMeets(Token(a));
      ReplaceShows(text + va, Token(b), "");
      assert ReplaceAll(ReplaceAll(text + Token(a), Token(a), va), Token(b), "")
          != ReplaceAll(ReplaceAll(text + Token(a), Token(b), ""), Token(a), va);
    } else {
      forall va, vb | !Meets(va, Token(b)) && !Meets(vb, Token(a))
        ensures ReplaceAll(text + va, Token(b), vb) == text + va
      {
        BothPass(text, va, b, vb);
      }
    }
  }

  lemma NothingMeets(token: string)
    ensures !Meets("", token)
  {
  }

  lemma CompletingValue(text: string, b: string) returns (va: string)
    requires CleanName(b) && EndsInBeginning(text, Token(b)) && !Contains(text, Token(b))
    ensures !Meets(va, Token(b)) && Contains(text + va, Token(b))
  {
    hide Meets;
    var k :| 0 <= k < |text| && text[k..] <= Token(b);
    va := Token(b)[|text| - k..];
    assert text[k..] + va == Token(b) && (text + va)[k..] == text[k..] + va;
    WithoutDollar(va, b);
  }

  lemma BothPass(text: string, va: string, b: string, vb: string)
    requires CleanName(b) && !Contains(text, Token(b)) && !EndsInBeginning(text, Token(b)) && !Meets(va, Token(b))
    ensures ReplaceAll(text + va, Token(b), vb) == text + va
  {
    assert !Meets(text, Token(b));
    ContainsMeets(va, Token(b));
    SkipText(text, va, Token(b), vb);
    assert va + "" == va;
    SkipText(va, "", Token(b), vb);
    EmptyStays(Token(b), vb);
  }
}

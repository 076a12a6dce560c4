/**
 What a format writes, leaf by leaf: each literal text, argument and directive
 of a phrase has a fixed slot and stands under a fixed list of conditions, and
 it is written exactly when all of these are true. The statements speak of the
 given arguments directly.
 */
module FormatOutput {
  import opened Options
  import opened FormatParser
  import opened FormatPrinter

  datatype Content = Literal(text: string) | Value(v: Var) | Formatted(legacy: Legacy)

  /** A condition and the slot of its argument, if it takes the next one. */
  datatype Guard = Guard(v: Var, slot: int)

  datatype Leaf = Leaf(content: Content, slot: int, guards: seq<Guard>)

  function ItemLeaves(item: Item, slot: int, guards: seq<Guard>): seq<Leaf>
    decreases item
  {
    match item
    case Plain(v) => [Leaf(Value(v), slot, guards)]
    case Directive(l) => [Leaf(Formatted(l), slot, guards)]
    case Branch(cond, body) => Leaves(body, slot + VarWidth(cond), guards + [Guard(cond, slot)])
  }

  /** The leaves of a phrase from left to right, when its first argument is number `slot`. */
  function Leaves(phrase: Phrase, slot: int, guards: seq<Guard>): seq<Leaf>
    decreases phrase
  {
    match phrase
    case End(text) => [Leaf(Literal(text), slot, guards)]
    case More(text, item, rest) =>
      [Leaf(Literal(text), slot, guards)] +
      (ItemLeaves(item, slot, guards) + Leaves(rest, slot + ItemWidth(item), guards))
  }

  // ---------------------------------------------------------------------
  // The arguments.

  /** The argument that a variable stands for is `x`. */
  predicate Is(v: Var, slot: int, env: Env, x: Argument) {
    match v
    case Next => 0 <= slot < |env.args| && x == env.args[slot]
    case Index(n) => 0 <= n < |env.args| && x == env.args[n]
    case Name(name) => name in env.named && x == env.named[name]
  }

  predicate Exists(v: Var, slot: int, env: Env) {
    match v
    case Next => 0 <= slot < |env.args|
    case Index(n) => 0 <= n < |env.args|
    case Name(name) => name in env.named
  }

  /** Names are looked up even where nothing is written. */
  predicate NameExists(v: Var, env: Env) {
    v.Name? ==> v.name in env.named
  }

  /** The argument of the condition has this truth value. */
  predicate Truthful(g: Guard, env: Env, b: bool) {
    match g.v
    case Next => 0 <= g.slot < |env.args| && env.args[g.slot].truth == Some(b)
    case Index(n) => 0 <= n < |env.args| && env.args[n].truth == Some(b)
    case Name(name) => name in env.named && env.named[name].truth == Some(b)
  }

  predicate AllTrue(guards: seq<Guard>, env: Env) {
    forall i :: 0 <= i < |guards| ==> Truthful(guards[i], env, true)
  }

  /** Condition number `i` has a truth value, if it is tested at all. */
  predicate Tested(guards: seq<Guard>, i: nat, env: Env)
    requires i < |guards|
  {
    && NameExists(guards[i].v, env)
    && (AllTrue(guards[..i], env) ==> Truthful(guards[i], env, true) || Truthful(guards[i], env, false))
  }

  predicate AllTested(guards: seq<Guard>, env: Env) {
    forall i :: 0 <= i < |guards| ==> Tested(guards, i, env)
  }

  /** The leaf can be printed: its conditions can be tested, and what it shows exists if it is shown. */
  predicate Supported(leaf: Leaf, env: Env) {
    && AllTested(leaf.guards, env)
    && match leaf.content
       case Literal(_) => true
       case Value(v) => NameExists(v, env) && (AllTrue(leaf.guards, env) ==> Exists(v, leaf.slot, env))
       case Formatted(l) => AllTrue(leaf.guards, env) && l.fmt != '%' ==> 0 <= leaf.slot < |env.args|
  }

  /** What a leaf writes. */
  predicate Writes(leaf: Leaf, env: Env, token: Token) {
    match leaf.content
    case Literal(text) => token == Text(text)
    case Value(v) => token.Show? && token.style == None && Is(v, leaf.slot, env, token.argument)
    case Formatted(l) =>
      if l.fmt == '%' then token == PercentSign(l)
      else 0 <= leaf.slot < |env.args| && token == Show(env.args[leaf.slot], Some(l))
  }

  /** The tokens are those of the leaves whose conditions are all true, in order. */
  predicate Prints(leaves: seq<Leaf>, env: Env, tokens: seq<Token>)
    decreases |leaves|
  {
    if leaves == [] then tokens == []
    else if AllTrue(leaves[0].guards, env) then
      tokens != [] && Writes(leaves[0], env, tokens[0]) && Prints(leaves[1..], env, tokens[1..])
    else Prints(leaves[1..], env, tokens)
  }

  predicate AllSupported(leaves: seq<Leaf>, env: Env) {
    forall i :: 0 <= i < |leaves| ==> Supported(leaves[i], env)
  }

  // ---------------------------------------------------------------------
  // Conditions.

  lemma GuardAdded(guards: seq<Guard>, g: Guard, env: Env)
    ensures AllTrue(guards + [g], env) <==> AllTrue(guards, env) && Truthful(g, env, true)
    ensures AllTested(guards + [g], env) <==>
              && AllTested(guards, env) && NameExists(g.v, env)
              && (AllTrue(guards, env) ==> Truthful(g, env, true) || Truthful(g, env, false))
  {
    var all := guards + [g];
    assert all[|guards|] == g && all[..|guards|] == guards;
    assert forall i :: 0 <= i < |guards| ==> all[i] == guards[i] && all[..i] == guards[..i];
    assert AllTested(all, env) ==> Tested(all, |guards|, env);
    forall i | 0 <= i < |guards| ensures Tested(all, i, env) <==> Tested(guards, i, env) {
    }
    forall i | 0 <= i < |all| && AllTested(guards, env) && Tested(all, |guards|, env) ensures Tested(all, i, env) {
      if i < |guards| {
        assert Tested(guards, i, env);
      }
    }
  }

  lemma TruthCases(x: Option<bool>)
    ensures x == None || x == Some(true) || x == Some(false)
  {
    if x.Some? {
      assert x == Some(x.value);
      if x.value {
        assert x == Some(true);
      } else {
        assert x == Some(false);
      }
    }
  }

  lemma ConditionIsTested(cond: Var, env: Env, slot: int, p: bool)
    ensures
      var g := Guard(cond, slot);
      var r := RunCondition(cond, env, slot, p);
      && (r.Ok? <==> NameExists(cond, env) && (p ==> Truthful(g, env, true) || Truthful(g, env, false)))
      && (r.Ok? ==> r.value == (p && Truthful(g, env, true)))
  {
    match cond
    case Next =>
      if 0 <= slot < |env.args| {
        TruthCases(env.args[slot].truth);
      }
    case Index(n) =>
      if 0 <= n < |env.args| {
        TruthCases(env.args[n].truth);
      }
    case Name(name) =>
      if name in env.named {
        TruthCases(env.named[name].truth);
      }
  }

  // ---------------------------------------------------------------------
  // The meaning of a phrase is what its leaves write.

  lemma {:induction false} PrintsConcat(
    xs: seq<Leaf>, ys: seq<Leaf>, env: Env, s: seq<Token>, t: seq<Token>)
    requires Prints(xs, env, s) && Prints(ys, env, t)
    ensures Prints(xs + ys, env, s + t)
    decreases |xs|
  {
    if xs == [] {
      assert xs + ys == ys && s + t == t;
    } else {
      assert (xs + ys)[0] == xs[0] && (xs + ys)[1..] == xs[1..] + ys;
      if AllTrue(xs[0].guards, env) {
        assert (s + t)[0] == s[0] && (s + t)[1..] == s[1..] + t;
        PrintsConcat(xs[1..], ys, env, s[1..], t);
      } else {
        PrintsConcat(xs[1..], ys, env, s, t);
      }
    }
  }

  lemma SupportedConcat(xs: seq<Leaf>, ys: seq<Leaf>, env: Env)
    ensures AllSupported(xs + ys, env) <==> AllSupported(xs, env) && AllSupported(ys, env)
  {
    var all := xs + ys;
    assert forall i :: 0 <= i < |xs| ==> all[i] == xs[i];
    assert forall i :: 0 <= i < |ys| ==> all[|xs| + i] == ys[i];
  }

  /** A leaf alone. */
  lemma LeafPrints(leaf: Leaf, env: Env, m: Result<seq<Token>, Failure>)
    requires m.Ok? <==> Supported(leaf, env)
    requires m.Ok? && AllTrue(leaf.guards, env) ==> |m.value| == 1 && Writes(leaf, env, m.value[0])
    requires m.Ok? && !AllTrue(leaf.guards, env) ==> m.value == []
    ensures m.Ok? <==> AllSupported([leaf], env)
    ensures m.Ok? ==> Prints([leaf], env, m.value)
  {
    assert [leaf][1..] == [];
    assert AllSupported([leaf], env) ==> Supported([leaf][0], env);
    if m.Ok? && AllTrue(leaf.guards, env) {
      assert m.value[1..] == [];
    }
  }

  lemma {:induction false} ItemPrints(item: Item, slot: int, guards: seq<Guard>, env: Env)
    requires AllTested(guards, env) && 0 <= slot
    ensures
      var m := ItemMeaning(item, slot, env, AllTrue(guards, env));
      && (m.Ok? <==> AllSupported(ItemLeaves(item, slot, guards), env))
      && (m.Ok? ==> Prints(ItemLeaves(item, slot, guards), env, m.value))
    decreases item
  {
    var p := AllTrue(guards, env);
    match item
    case Plain(v) => LeafPrints(Leaf(Value(v), slot, guards), env, VarMeaning(v, slot, env, p));
    case Directive(l) => LeafPrints(Leaf(Formatted(l), slot, guards), env, ItemMeaning(item, slot, env, p));
    case Branch(cond, body) =>
      var g := Guard(cond, slot);
      ConditionIsTested(cond, env, slot, p);
      GuardAdded(guards, g, env);
      if AllTested(guards + [g], env) {
        PhrasePrints(body, slot + VarWidth(cond), guards + [g], env);
      } else {
        assert !Supported(Leaves(body, slot + VarWidth(cond), guards + [g])[0], env);
      }
  }

  lemma {:induction false} PhrasePrints(phrase: Phrase, slot: int, guards: seq<Guard>, env: Env)
    requires AllTested(guards, env) && 0 <= slot
    ensures
      var m := Meaning(phrase, slot, env, AllTrue(guards, env));
      && (m.Ok? <==> AllSupported(Leaves(phrase, slot, guards), env))
      && (m.Ok? ==> Prints(Leaves(phrase, slot, guards), env, m.value))
    decreases phrase
  {
    var p := AllTrue(guards, env);
    var literal := Leaf(Literal(phrase.text), slot, guards);
    var text := Ok(if p then [Text(phrase.text)] else []);
    LeafPrints(literal, env, text);
    if phrase.More? {
      var x, y := ItemLeaves(phrase.item, slot, guards), Leaves(phrase.rest, slot + ItemWidth(phrase.item), guards);
      ItemPrints(phrase.item, slot, guards, env);
      PhrasePrints(phrase.rest, slot + ItemWidth(phrase.item), guards, env);
      SupportedConcat(x, y, env);
      SupportedConcat([literal], x + y, env);
      ThenPrints([literal], x, y, env, text, ItemMeaning(phrase.item, slot, env, p),
                 Meaning(phrase.rest, slot + ItemWidth(phrase.item), env, p));
    }
  }

  lemma ThenPrints(
    xs: seq<Leaf>, ys: seq<Leaf>, zs: seq<Leaf>, env: Env,
    a: Result<seq<Token>, Failure>, b: Result<seq<Token>, Failure>, c: Result<seq<Token>, Failure>)
    requires a.Ok? ==> Prints(xs, env, a.value)
    requires b.Ok? ==> Prints(ys, env, b.value)
    requires c.Ok? ==> Prints(zs, env, c.value)
    ensures Then(a, Then(b, c)).Ok? <==> a.Ok? && b.Ok? && c.Ok?
    ensures Then(a, Then(b, c)).Ok? ==> Prints(xs + (ys + zs), env, Then(a, Then(b, c)).value)
  {
    if a.Ok? && b.Ok? && c.Ok? {
      PrintsConcat(ys, zs, env, b.value, c.value);
      PrintsConcat(xs, ys + zs, env, a.value, b.value + c.value);
    }
  }

  /**
   A format with no `%%` under a condition prints if and only if every leaf can
   be printed and no argument is left over (unless some are named by position);
   it then writes the leaves whose conditions are all true, in order.
   */
  lemma PrintExactly(format: string, env: Env)
    requires Parse(format).Some? && PercentsBeneath(Parse(format).value) == 0
    ensures
      var phrase := Parse(format).value;
      var leaves := Leaves(phrase, 0, []);
      && (Print(format, env).Ok? <==> AllSupported(leaves, env) && (HasIndex(phrase) || |env.args| <= Width(phrase)))
      && (Print(format, env).Ok? ==> Prints(leaves, env, Print(format, env).value))
  {
    PrintIsStatic(format, env);
    PhrasePrints(Parse(format).value, 0, [], env);
  }

  // ---------------------------------------------------------------------
  // Formats that just take their arguments one after the other.

  predicate Sequential(phrase: Phrase) {
    match phrase
    case End(_) => true
    case More(_, item, rest) =>
      && (item == Plain(Next) || (item.Directive? && item.legacy.fmt != '%'))
      && Sequential(rest)
  }

  function Texts(phrase: Phrase): seq<string> {
    match phrase
    case End(text) => [text]
    case More(text, _, rest) => [text] + Texts(rest)
  }

  /** How each argument is to be shown. */
  function Styles(phrase: Phrase): seq<Option<Legacy>> {
    match phrase
    case End(_) => []
    case More(_, item, rest) => [if item.Directive? then Some(item.legacy) else None] + Styles(rest)
  }

  /** The tokens alternate between texts and the arguments from number `first` on. */
  predicate Alternates(
    tokens: seq<Token>, texts: seq<string>, styles: seq<Option<Legacy>>, args: seq<Argument>, first: nat)
  {
    && |texts| == |styles| + 1 && |tokens| == 2 * |styles| + 1 && first + |styles| <= |args|
    && (forall k :: 0 <= k < |texts| ==> tokens[2 * k] == Text(texts[k]))
    && (forall k :: 0 <= k < |styles| ==> tokens[2 * k + 1] == Show(args[first + k], styles[k]))
  }

  lemma AlternatesCons(
    text: string, style: Option<Legacy>, tail: seq<Token>, texts: seq<string>, styles: seq<Option<Legacy>>,
    args: seq<Argument>, first: nat)
    requires first < |args| && Alternates(tail, texts, styles, args, first + 1)
    ensures Alternates([Text(text), Show(args[first], style)] + tail, [text] + texts, [style] + styles, args, first)
  {
    var tokens := [Text(text), Show(args[first], style)] + tail;
    forall k | 0 <= k < |texts| + 1 ensures tokens[2 * k] == Text(([text] + texts)[k]) {
      if k > 0 {
        assert tokens[2 * k] == tail[2 * (k - 1)];
      }
    }
    forall k | 0 <= k < |styles| + 1 ensures tokens[2 * k + 1] == Show(args[first + k], ([style] + styles)[k]) {
      if k > 0 {
        assert tokens[2 * k + 1] == tail[2 * (k - 1) + 1];
      }
    }
  }

  lemma {:induction false} SequentialRun(phrase: Phrase, env: Env, st: State) returns (tokens: seq<Token>)
    requires Sequential(phrase) && 0 <= st.count
    ensures
      var r := RunPhrase(phrase, env, st, true);
      && (r.Ok? <==> |Styles(phrase)| == 0 || st.count + |Styles(phrase)| <= |env.args|)
      && (r.Ok? ==>
            && r.value == State(st.count + |Styles(phrase)|, st.fullPositional, st.out + tokens)
            && (st.count <= |env.args| ==> Alternates(tokens, Texts(phrase), Styles(phrase), env.args, st.count)))
    decreases phrase
  {
    match phrase
    case End(text) =>
      tokens := [Text(text)];
    case More(text, item, rest) =>
      tokens := [];
      if st.count < |env.args| {
        var x := env.args[st.count];
        var style := if item.Directive? then Some(item.legacy) else None;
        var st1 := State(st.count + 1, st.fullPositional, st.out + [Text(text)] + [Show(x, style)]);
        assert RunItem(item, env, st.(out := st.out + [Text(text)]), true) == Ok(st1);
        var tail := SequentialRun(rest, env, st1);
        tokens := [Text(text), Show(x, style)] + tail;
        assert st1.out + tail == st.out + tokens;
        if |Styles(rest)| == 0 || st1.count + |Styles(rest)| <= |env.args| {
          AlternatesCons(text, style, tail, Texts(rest), Styles(rest), env.args, st.count);
        }
      }
  }

  /** Such a format prints exactly as many arguments as it has places for, all of them, in order, each in its style. */
  lemma ArgumentsInOrder(format: string, env: Env)
    requires Parse(format).Some? && Sequential(Parse(format).value)
    ensures
      var phrase := Parse(format).value;
      && (Print(format, env).Ok? <==> |Styles(phrase)| == |env.args|)
      && (Print(format, env).Ok? ==> Alternates(Print(format, env).value, Texts(phrase), Styles(phrase), env.args, 0))
  {
    var tokens := SequentialRun(Parse(format).value, env, START);
    assert START.out + tokens == tokens;
  }
}

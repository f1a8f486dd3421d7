/** The XML automaton-set loader: an automaton per `<automaton>` element, the
    names of the automatons and their transitions, the link pass that
    resolves every transition's true and false branches by name, and the
    per-automaton initialisation that reads the CSV transition table and
    opens the Lua state.

    A parsed document is a tree of `Element`s; ezxml's `ezxml_child` and
    `->next` walk the children with one tag in document order, which is what
    `Children` returns. Files are a map from file name to the file's lines. */
module XmlLoader {
  import opened Wrappers
  import opened Catalog
  import opened Factories
  import opened CsvLoader
  import LuaCallbacks

  /** The size of a transition's name and of its Lua function name buffers. */
  const MaxTransitionNameLen: nat := 200
  const MaxLuaFunctionNameLen: nat := 200

  /** `strncpy` into the CSV and Lua file name buffers copies at most this many. */
  const MaxFilenameLen: nat := 1024

  datatype Element = Element(tag: string, attrs: seq<(string, string)>, txt: string,
                             children: seq<Element>)

  /** AUTOMATON_XML_FILE_RET_CODES other than OK: 1, 2 and 3. */
  datatype XmlError = LoadFail | LinksFail | StartAutomatonBad

  /** PARSE_SINGLE_AUTOMATON_RET_CODES other than OK: 1 to 5. */
  datatype ParseError = ParseFail | MissingCsv | MissingLua | MissingStartState | InvalidStartState

  /** INIT_AUTOMATON_LINKS_RET_CODES other than OK: 1 and 2. */
  datatype LinkError = TransitionFileFail | CsvFileFail

  function ChildrenOf(cs: seq<Element>, tag: string): (r: seq<Element>)
    ensures |r| <= |cs|
    ensures forall i :: 0 <= i < |r| ==> r[i].tag == tag
  {
    if |cs| == 0 then []
    else if cs[0].tag == tag then [cs[0]] + ChildrenOf(cs[1..], tag)
    else ChildrenOf(cs[1..], tag)
  }

  /** The children of `e` with this tag, in document order. */
  function Children(e: Element, tag: string): seq<Element> {
    ChildrenOf(e.children, tag)
  }

  /** ezxml_child: the first child with this tag, or NULL. */
  function Child(e: Element, tag: string): (r: Option<Element>)
    ensures r.Some? <==> |Children(e, tag)| > 0
    ensures r.Some? ==> r.value == Children(e, tag)[0]
  {
    var cs := Children(e, tag);
    if |cs| == 0 then None else Some(cs[0])
  }

  function AttrOf(attrs: seq<(string, string)>, name: string): (r: Option<string>)
    ensures r.Some? <==> exists i :: 0 <= i < |attrs| && attrs[i].0 == name
  {
    if |attrs| == 0 then None
    else if attrs[0].0 == name then Some(attrs[0].1)
    else AttrOf(attrs[1..], name)
  }

  /** ezxml_attr: the value of the first attribute with this name, or NULL. */
  function Attr(e: Element, name: string): Option<string> {
    AttrOf(e.attrs, name)
  }

  /** `strncpy` of `s` into a buffer of `n` characters, for a string the
      buffer can terminate. */
  function Clip(s: string, n: nat): (r: string)
    ensures |r| <= n && |r| <= |s| && r == s[..|r|]
    ensures |s| <= n ==> r == s
  {
    if |s| <= n then s else s[..n]
  }

  // ---------------------------------------------------------------------
  // Pass 1: one automaton per <automaton> element.

  /** create_automatons_from_xml: the set holds as many automatons as the
      document has `<automaton>` children, each built by the factories. */
  function CreateAutomatonsFromXml(doc: Element, events: () -> seq<Event>,
                                   states: nat -> seq<State>): (r: seq<Automaton>)
    ensures |r| == |Children(doc, "automaton")|
    ensures forall i :: 0 <= i < |r| ==> r[i] == CreateAutomaton(events, states)
  {
    seq(|Children(doc, "automaton")|, _ => CreateAutomaton(events, states))
  }

  // ---------------------------------------------------------------------
  // Pass 2: automaton and transition names.

  /** create_automaton_transition plus the id and the name pass 2 gives it. */
  function NewTransition(i: nat, x: Element): Transition {
    var name := match Attr(x, "name")
                case None => ""
                case Some(n) => Clip(n, MaxTransitionNameLen);
    Transition(i, name, "", Unlinked, Unlinked)
  }

  predicate AllNamed(xs: seq<Element>) {
    forall i :: 0 <= i < |xs| ==> Attr(xs[i], "name").Some?
  }

  /** parse_transition_names: one unlinked transition per `<transition>`
      child, numbered from zero; a child without a name attribute makes the
      pass fail but the remaining transitions are still created. */
  function ParseTransitionNames(x: Element, a: Automaton): (r: (Automaton, bool))
    ensures r.0 == a.(transitions := r.0.transitions)
    ensures |r.0.transitions| == |Children(x, "transition")|
    ensures forall i :: 0 <= i < |r.0.transitions| ==>
              && r.0.transitions[i].id == i && r.0.transitions[i].luaFn == ""
              && r.0.transitions[i].onTrue == Unlinked && r.0.transitions[i].onFalse == Unlinked
    ensures forall i :: 0 <= i < |r.0.transitions| && Attr(Children(x, "transition")[i], "name").Some? ==>
              r.0.transitions[i].name == Clip(Attr(Children(x, "transition")[i], "name").value, MaxTransitionNameLen)
    ensures r.1 <==> AllNamed(Children(x, "transition"))
  {
    var xs := Children(x, "transition");
    (a.(transitions := seq(|xs|, i requires 0 <= i < |xs| => NewTransition(i, xs[i]))), AllNamed(xs))
  }

  /** An `<automaton>` element pass 2 accepts: it and all its transitions are named. */
  predicate Named(x: Element) {
    Attr(x, "name").Some? && AllNamed(Children(x, "transition"))
  }

  /** `b` is `a` after pass 2 read element `x`: the automaton name truncated
      to its buffer, and one unlinked transition per `<transition>` child,
      numbered in document order and carrying that child's name. */
  predicate NamedAs(x: Element, a: Automaton, b: Automaton) {
    && Named(x)
    && b == a.(name := b.name, transitions := b.transitions)
    && b.name == Clip(Attr(x, "name").value, MaxAutomatonNameLen)
    && |b.transitions| == |Children(x, "transition")|
    && forall i :: 0 <= i < |b.transitions| ==>
         b.transitions[i] == Transition(i, Clip(Attr(Children(x, "transition")[i], "name").value,
                                                MaxTransitionNameLen), "", Unlinked, Unlinked)
  }

  function NamesFrom(xs: seq<Element>, auts: seq<Automaton>, i: nat): (r: Result<seq<Automaton>, XmlError>)
    requires |xs| == |auts| && i <= |xs|
    ensures r.Ok? <==> forall k :: i <= k < |xs| ==> Named(xs[k])
    ensures r.Err? ==> r.error == LinksFail
    ensures r.Ok? ==> |r.value| == |auts|
    ensures r.Ok? ==> forall k :: 0 <= k < i ==> r.value[k] == auts[k]
    ensures r.Ok? ==> forall k :: i <= k < |auts| ==> NamedAs(xs[k], auts[k], r.value[k])
    decreases |xs| - i
  {
    if i == |xs| then Ok(auts)
    else
      match Attr(xs[i], "name")
      case None => Err(LinksFail)
      case Some(n) =>
        var t := ParseTransitionNames(xs[i], auts[i].(name := Clip(n, MaxAutomatonNameLen)));
        if !t.1 then Err(LinksFail) else NamesFrom(xs, auts[i := t.0], i + 1)
  }

  /** parse_automaton_names: names every automaton and its transitions, and
      stops with LINKS_FAIL at the first automaton that lacks a name or has an
      unnamed transition. */
  function ParseAutomatonNames(doc: Element, auts: seq<Automaton>): (r: Result<seq<Automaton>, XmlError>)
    requires |auts| == |Children(doc, "automaton")|
    ensures r.Ok? <==> forall k :: 0 <= k < |auts| ==> Named(Children(doc, "automaton")[k])
    ensures r.Err? ==> r.error == LinksFail
    ensures r.Ok? ==> (|r.value| == |auts| &&
              forall k :: 0 <= k < |auts| ==> NamedAs(Children(doc, "automaton")[k], auts[k], r.value[k]))
  {
    NamesFrom(Children(doc, "automaton"), auts, 0)
  }

  // ---------------------------------------------------------------------
  // Lookups that only depend on names and sizes.

  /** `b`'s states are `a`'s, except for what their slots are bound to. */
  predicate SameStates(a: Automaton, b: Automaton) {
    && |b.states| == |a.states|
    && forall s :: 0 <= s < |a.states| ==>
         b.states[s] == a.states[s].(slots := b.states[s].slots)
         && |b.states[s].slots| == |a.states[s].slots|
  }

  /** `b` has `a`'s name, states (up to slot bindings) and transition ids and
      names: every lookup by name, and every reference's validity, is the
      same in both. */
  predicate SameSkeleton(a: Automaton, b: Automaton) {
    && b.name == a.name && SameStates(a, b)
    && |b.transitions| == |a.transitions|
    && forall t :: 0 <= t < |a.transitions| ==>
         b.transitions[t].id == a.transitions[t].id && b.transitions[t].name == a.transitions[t].name
  }

  predicate SameSkeletons(auts: seq<Automaton>, bs: seq<Automaton>) {
    |bs| == |auts| && forall i :: 0 <= i < |auts| ==> SameSkeleton(auts[i], bs[i])
  }

  lemma SkeletonsTrans(as_: seq<Automaton>, bs: seq<Automaton>, cs: seq<Automaton>)
    requires SameSkeletons(as_, bs) && SameSkeletons(bs, cs)
    ensures SameSkeletons(as_, cs)
  {
  }

  lemma SkeletonLookups(auts: seq<Automaton>, bs: seq<Automaton>)
    requires SameSkeletons(auts, bs)
    ensures AutomatonNames(bs) == AutomatonNames(auts)
    ensures forall i :: 0 <= i < |auts| ==> TransitionNames(bs[i]) == TransitionNames(auts[i])
    ensures forall i :: 0 <= i < |auts| ==> StateNames(bs[i]) == StateNames(auts[i])
    ensures forall i :: 0 <= i < |auts| ==> |bs[i].states| == |auts[i].states|
  {
    forall i | 0 <= i < |auts|
      ensures TransitionNames(bs[i]) == TransitionNames(auts[i]) && StateNames(bs[i]) == StateNames(auts[i])
    {
      assert SameSkeleton(auts[i], bs[i]);
    }
  }

  predicate TransitionOk(auts: seq<Automaton>, t: Transition) {
    BranchOk(auts, t.onTrue) && BranchOk(auts, t.onFalse)
  }

  predicate AllTransitionsOk(auts: seq<Automaton>, a: Automaton) {
    forall t :: 0 <= t < |a.transitions| ==> TransitionOk(auts, a.transitions[t])
  }

  lemma BranchOkSkeleton(auts: seq<Automaton>, bs: seq<Automaton>, b: Branch)
    requires SameSkeletons(auts, bs) && BranchOk(auts, b)
    ensures BranchOk(bs, b)
  {
    SkeletonLookups(auts, bs);
  }

  lemma AutomatonOkSkeleton(auts: seq<Automaton>, bs: seq<Automaton>, a: Automaton)
    requires SameSkeletons(auts, bs) && AutomatonOk(auts, a)
    ensures AutomatonOk(bs, a)
  {
    forall i | 0 <= i < |a.transitions|
      ensures BranchOk(bs, a.transitions[i].onTrue) && BranchOk(bs, a.transitions[i].onFalse)
    {
      BranchOkSkeleton(auts, bs, a.transitions[i].onTrue);
      BranchOkSkeleton(auts, bs, a.transitions[i].onFalse);
    }
  }

  lemma AllTransitionsOkSkeleton(auts: seq<Automaton>, bs: seq<Automaton>, a: Automaton)
    requires SameSkeletons(auts, bs)
    ensures AllTransitionsOk(auts, a) ==> AllTransitionsOk(bs, a)
  {
    if AllTransitionsOk(auts, a) {
      forall t | 0 <= t < |a.transitions| ensures TransitionOk(bs, a.transitions[t]) {
        BranchOkSkeleton(auts, bs, a.transitions[t].onTrue);
        BranchOkSkeleton(auts, bs, a.transitions[t].onFalse);
      }
    }
  }

  // ---------------------------------------------------------------------
  // Pass 3: the links of one automaton's transitions.

  /** The automaton a `<true>` or `<false>` element switches to: the first
      automaton whose name starts with the `<automaton>` text, or None when
      there is no such child or no such automaton (which is only logged). */
  function Switch(auts: seq<Automaton>, x: Element): (r: Option<nat>)
    ensures r.Some? ==> r.value < |auts|
  {
    match Child(x, "automaton")
    case None => None
    case Some(c) => GetAutomatonByName(auts, c.txt)
  }

  /** The automaton later state and transition names are looked up in:
      the switch target when there is one, else `eff`. */
  function Target(auts: seq<Automaton>, eff: nat, x: Element): nat {
    match Switch(auts, x)
    case None => eff
    case Some(k) => k
  }

  /** One `<true>` or `<false>` element: the branch it describes and the
      automaton the loader will look names up in from now on. */
  function LinkBranch(auts: seq<Automaton>, eff: nat, x: Element): (r: Result<(Branch, nat), ParseError>)
    requires eff < |auts|
    ensures r.Err? ==> r.error == ParseFail
    ensures r.Err? <==>
              || (Child(x, "state").None? && Child(x, "transition").None? && Child(x, "automaton").None?)
              || (Child(x, "state").Some? &&
                  FindState(auts[Target(auts, eff, x)], Child(x, "state").value.txt).None?)
              || (Child(x, "state").None? && Child(x, "transition").Some? &&
                  FindTransition(auts[Target(auts, eff, x)], Child(x, "transition").value.txt).None?)
    ensures r.Ok? ==> BranchOk(auts, r.value.0)
    ensures r.Ok? ==> r.value.0.automaton == Switch(auts, x) && r.value.1 == Target(auts, eff, x)
    ensures r.Ok? && Child(x, "state").Some? ==>
              && r.value.0.trans.None? && r.value.0.state.Some?
              && r.value.0.state.value.aut == r.value.1
              && StateAt(auts, r.value.0.state.value).name == Child(x, "state").value.txt
    ensures r.Ok? && Child(x, "state").None? && Child(x, "transition").Some? ==>
              && r.value.0.state.None? && r.value.0.trans.Some?
              && r.value.0.trans.value.aut == r.value.1
              && TransitionAt(auts, r.value.0.trans.value).name == Child(x, "transition").value.txt
    ensures r.Ok? && Child(x, "state").None? && Child(x, "transition").None? ==>
              r.value.0.state.None? && r.value.0.trans.None?
  {
    var st := Child(x, "state");
    var tr := Child(x, "transition");
    var au := Child(x, "automaton");
    if st.None? && tr.None? && au.None? then Err(ParseFail)
    else
      var target := Target(auts, eff, x);
      if st.Some? then
        match FindState(auts[target], st.value.txt)
        case None => Err(ParseFail)
        case Some(k) => Ok((Branch(Some(Ref(target, k)), None, Switch(auts, x)), target))
      else if tr.Some? then
        match FindTransition(auts[target], tr.value.txt)
        case None => Err(ParseFail)
        case Some(k) => Ok((Branch(None, Some(Ref(target, k)), Switch(auts, x)), target))
      else Ok((Branch(None, None, Switch(auts, x)), target))
  }

  lemma LinkBranchSkeleton(auts: seq<Automaton>, bs: seq<Automaton>, eff: nat, x: Element)
    requires SameSkeletons(auts, bs) && eff < |auts|
    ensures LinkBranch(bs, eff, x) == LinkBranch(auts, eff, x)
  {
    SkeletonLookups(auts, bs);
    assert Switch(bs, x) == Switch(auts, x);
    var target := Target(auts, eff, x);
    assert SameSkeleton(auts[target], bs[target]);
  }

  /** What linking one `<transition>` element produces: the index of the
      transition it fills in, the filled-in transition, and the automatons
      the true and false branches left the loader looking names up in. */
  datatype TransitionLink = TransitionLink(index: nat, t: Transition, effTrue: nat, effFalse: nat)

  /** One iteration of fill_single_automaton_links. */
  function LinkTransition(auts: seq<Automaton>, own: nat, effTrue: nat, effFalse: nat,
                          x: Element): (r: Result<TransitionLink, ParseError>)
    requires own < |auts| && effTrue < |auts| && effFalse < |auts|
    ensures r.Err? ==> r.error == ParseFail
    ensures (|| Attr(x, "name").None? || Child(x, "lua_function_name").None?
             || Child(x, "true").None? || Child(x, "false").None?) ==> r.Err?
    ensures Attr(x, "name").Some? && FindTransition(auts[own], Attr(x, "name").value).None? ==> r.Err?
    ensures r.Ok? ==>
              && r.value.index < |auts[own].transitions|
              && r.value.index == FindTransition(auts[own], Attr(x, "name").value).value
              && r.value.t.id == auts[own].transitions[r.value.index].id
              && r.value.t.name == auts[own].transitions[r.value.index].name
              && r.value.t.luaFn == Clip(Child(x, "lua_function_name").value.txt, MaxLuaFunctionNameLen)
              && TransitionOk(auts, r.value.t)
              && r.value.effTrue == Target(auts, effTrue, Child(x, "true").value)
              && r.value.effFalse == Target(auts, effFalse, Child(x, "false").value)
              && r.value.effTrue < |auts| && r.value.effFalse < |auts|
  {
    var name := Attr(x, "name");
    var lua := Child(x, "lua_function_name");
    var tx := Child(x, "true");
    var fx := Child(x, "false");
    if name.None? || lua.None? || tx.None? || fx.None? then Err(ParseFail)
    else
      match FindTransition(auts[own], name.value)
      case None => Err(ParseFail)
      case Some(k) =>
        match LinkBranch(auts, effTrue, tx.value)
        case Err(e) => Err(e)
        case Ok(bt) =>
          match LinkBranch(auts, effFalse, fx.value)
          case Err(e) => Err(e)
          case Ok(bf) =>
            var prior := auts[own].transitions[k];
            Ok(TransitionLink(k, Transition(prior.id, prior.name, Clip(lua.value.txt, MaxLuaFunctionNameLen),
                                            bt.0, bf.0), bt.1, bf.1))
  }

  lemma LinkTransitionSkeleton(auts: seq<Automaton>, bs: seq<Automaton>, own: nat,
                               effTrue: nat, effFalse: nat, x: Element)
    requires SameSkeletons(auts, bs) && own < |auts| && effTrue < |auts| && effFalse < |auts|
    ensures LinkTransition(bs, own, effTrue, effFalse, x) == LinkTransition(auts, own, effTrue, effFalse, x)
  {
    SkeletonLookups(auts, bs);
    assert SameSkeleton(auts[own], bs[own]);
    if Child(x, "true").Some? {
      LinkBranchSkeleton(auts, bs, effTrue, Child(x, "true").value);
    }
    if Child(x, "false").Some? {
      LinkBranchSkeleton(auts, bs, effFalse, Child(x, "false").value);
    }
  }

  /** Store a linked transition in automaton `own`. */
  function Patch(auts: seq<Automaton>, own: nat, u: TransitionLink): (r: seq<Automaton>)
    requires own < |auts| && u.index < |auts[own].transitions|
    ensures |r| == |auts| && |r[own].transitions| == |auts[own].transitions|
  {
    auts[own := auts[own].(transitions := auts[own].transitions[u.index := u.t])]
  }

  lemma PatchSkeleton(auts: seq<Automaton>, own: nat, effTrue: nat, effFalse: nat, x: Element)
    requires own < |auts| && effTrue < |auts| && effFalse < |auts|
    requires LinkTransition(auts, own, effTrue, effFalse, x).Ok?
    ensures SameSkeletons(auts, Patch(auts, own, LinkTransition(auts, own, effTrue, effFalse, x).value))
  {
    var b := Patch(auts, own, LinkTransition(auts, own, effTrue, effFalse, x).value);
    assert StateNames(b[own]) == StateNames(auts[own]);
  }

  /** fill_single_automaton_links over the remaining `<transition>` elements.
      With `carry` the automaton a branch switched to stays the one later
      transitions look names up in, as the source's loop-level locals do;
      without it every transition starts from its own automaton. */
  function FillLinksFrom(auts: seq<Automaton>, own: nat, xs: seq<Element>,
                         effTrue: nat, effFalse: nat, carry: bool): (r: Result<seq<Automaton>, ParseError>)
    requires own < |auts| && effTrue < |auts| && effFalse < |auts|
    ensures r.Err? ==> r.error == ParseFail
    ensures r.Ok? ==> SameSkeletons(auts, r.value)
    ensures r.Ok? ==> forall j :: 0 <= j < |auts| && j != own ==> r.value[j] == auts[j]
    ensures r.Ok? ==> r.value[own] == auts[own].(transitions := r.value[own].transitions)
    ensures r.Ok? && AllTransitionsOk(auts, auts[own]) ==> AllTransitionsOk(r.value, r.value[own])
    decreases |xs|
  {
    if |xs| == 0 then Ok(auts)
    else
      match LinkTransition(auts, own, effTrue, effFalse, xs[0])
      case Err(e) => Err(e)
      case Ok(u) =>
        var next := Patch(auts, own, u);
        PatchSkeleton(auts, own, effTrue, effFalse, xs[0]);
        PatchKeepsOk(auts, own, u);
        var r := if carry then FillLinksFrom(next, own, xs[1..], u.effTrue, u.effFalse, carry)
                 else FillLinksFrom(next, own, xs[1..], own, own, carry);
        if r.Ok? then
          SkeletonsTrans(auts, next, r.value);
          r
        else r
  }

  lemma PatchKeepsOk(auts: seq<Automaton>, own: nat, u: TransitionLink)
    requires own < |auts| && u.index < |auts[own].transitions| && TransitionOk(auts, u.t)
    requires SameSkeletons(auts, Patch(auts, own, u))
    ensures AllTransitionsOk(auts, auts[own]) ==> AllTransitionsOk(Patch(auts, own, u), Patch(auts, own, u)[own])
  {
    var next := Patch(auts, own, u);
    if AllTransitionsOk(auts, auts[own]) {
      assert AllTransitionsOk(auts, next[own]);
      AllTransitionsOkSkeleton(auts, next, next[own]);
    }
  }

  /** The link pass as the source writes it: a switch of automaton in one
      transition's branch carries over to the transitions after it. */
  function FillLinksAsWritten(auts: seq<Automaton>, own: nat, x: Element): (r: Result<seq<Automaton>, ParseError>)
    requires own < |auts|
    ensures r.Err? ==> r.error == ParseFail
    ensures r.Ok? ==> SameSkeletons(auts, r.value)
    ensures r.Ok? ==> forall j :: 0 <= j < |auts| && j != own ==> r.value[j] == auts[j]
    ensures r.Ok? ==> r.value[own] == auts[own].(transitions := r.value[own].transitions)
    ensures r.Ok? && AllTransitionsOk(auts, auts[own]) ==> AllTransitionsOk(r.value, r.value[own])
  {
    FillLinksFrom(auts, own, Children(x, "transition"), own, own, true)
  }

  /** The link pass with each transition's names looked up from its own
      automaton unless its own branch switches. */
  function FillLinks(auts: seq<Automaton>, own: nat, x: Element): (r: Result<seq<Automaton>, ParseError>)
    requires own < |auts|
    ensures r.Err? ==> r.error == ParseFail
    ensures r.Ok? ==> SameSkeletons(auts, r.value)
    ensures r.Ok? ==> forall j :: 0 <= j < |auts| && j != own ==> r.value[j] == auts[j]
    ensures r.Ok? ==> r.value[own] == auts[own].(transitions := r.value[own].transitions)
    ensures r.Ok? && AllTransitionsOk(auts, auts[own]) ==> AllTransitionsOk(r.value, r.value[own])
  {
    FillLinksFrom(auts, own, Children(x, "transition"), own, own, false)
  }

  /** A `<true>` or `<false>` child that is present names no automaton to
      switch to. */
  predicate Stays(x: Element, tag: string) {
    Child(x, tag).None? || Child(Child(x, tag).value, "automaton").None?
  }

  /** No branch of any of the transitions `xs` switches automaton. */
  predicate SwitchFree(xs: seq<Element>) {
    forall j :: 0 <= j < |xs| ==> Stays(xs[j], "true") && Stays(xs[j], "false")
  }

  lemma {:induction false} CarryHarmlessFrom(auts: seq<Automaton>, own: nat, xs: seq<Element>)
    requires own < |auts| && SwitchFree(xs)
    ensures FillLinksFrom(auts, own, xs, own, own, true) == FillLinksFrom(auts, own, xs, own, own, false)
    decreases |xs|
  {
    if |xs| > 0 {
      match LinkTransition(auts, own, own, own, xs[0])
      case Err(_) =>
      case Ok(u) =>
        assert Stays(xs[0], "true") && Stays(xs[0], "false");
        assert u.effTrue == own && u.effFalse == own;
        assert SwitchFree(xs[1..]) by {
          forall j | 0 <= j < |xs[1..]| ensures Stays(xs[1..][j], "true") && Stays(xs[1..][j], "false") {
            assert xs[1..][j] == xs[j + 1];
          }
        }
        CarryHarmlessFrom(Patch(auts, own, u), own, xs[1..]);
    }
  }

  /** The link pass as written and the corrected one agree on every document
      in which no branch switches automaton: only a switch can leak. */
  lemma FillLinksAgreeWithoutSwitch(auts: seq<Automaton>, own: nat, x: Element)
    requires own < |auts| && SwitchFree(Children(x, "transition"))
    ensures FillLinksAsWritten(auts, own, x) == FillLinks(auts, own, x)
  {
    CarryHarmlessFrom(auts, own, Children(x, "transition"));
  }

  // The reference: link every transition on its own, then store them all.

  /** Every result, when none of them is an error. */
  function AllOk<T>(rs: seq<Result<T, ParseError>>): (r: Result<seq<T>, ParseError>)
    ensures r.Ok? <==> forall k :: 0 <= k < |rs| ==> rs[k].Ok?
    ensures r.Err? ==> r.error == ParseFail
    ensures r.Ok? ==> |r.value| == |rs| && forall k :: 0 <= k < |rs| ==> r.value[k] == rs[k].value
  {
    if forall k :: 0 <= k < |rs| ==> rs[k].Ok? then
      Ok(seq(|rs|, k requires 0 <= k < |rs| => rs[k].value))
    else Err(ParseFail)
  }

  lemma AllOkCons<T>(rs: seq<Result<T, ParseError>>)
    requires |rs| > 0
    ensures AllOk(rs) == if rs[0].Ok? && AllOk(rs[1..]).Ok? then Ok([rs[0].value] + AllOk(rs[1..]).value)
                         else Err(ParseFail)
  {
    assert forall k :: 1 <= k < |rs| ==> rs[1..][k - 1] == rs[k];
    if rs[0].Ok? && AllOk(rs[1..]).Ok? {
      assert AllOk(rs).value == [rs[0].value] + AllOk(rs[1..]).value;
    }
  }

  /** Each `<transition>` linked from its own automaton, on its own. */
  function Links(auts: seq<Automaton>, own: nat, xs: seq<Element>): (r: seq<Result<TransitionLink, ParseError>>)
    requires own < |auts|
    ensures |r| == |xs| && forall k :: 0 <= k < |xs| ==> r[k] == LinkTransition(auts, own, own, own, xs[k])
  {
    seq(|xs|, k requires 0 <= k < |xs| => LinkTransition(auts, own, own, own, xs[k]))
  }

  /** The reference link pass: every transition linked on its own. */
  function Independent(auts: seq<Automaton>, own: nat, xs: seq<Element>): (r: Result<seq<TransitionLink>, ParseError>)
    requires own < |auts|
    ensures r.Ok? <==> forall k :: 0 <= k < |xs| ==> LinkTransition(auts, own, own, own, xs[k]).Ok?
    ensures r.Err? ==> r.error == ParseFail
    ensures r.Ok? ==> |r.value| == |xs| && UpdatesFit(auts, own, r.value)
    ensures r.Ok? ==> forall k :: 0 <= k < |xs| ==> r.value[k] == LinkTransition(auts, own, own, own, xs[k]).value
  {
    AllOk(Links(auts, own, xs))
  }

  predicate UpdatesFit(auts: seq<Automaton>, own: nat, us: seq<TransitionLink>) {
    own < |auts| && forall k :: 0 <= k < |us| ==> us[k].index < |auts[own].transitions|
  }

  function ApplyUpdates(auts: seq<Automaton>, own: nat, us: seq<TransitionLink>): seq<Automaton>
    requires UpdatesFit(auts, own, us)
    decreases |us|
  {
    if |us| == 0 then auts else ApplyUpdates(Patch(auts, own, us[0]), own, us[1..])
  }

  lemma IndependentSkeleton(auts: seq<Automaton>, bs: seq<Automaton>, own: nat, xs: seq<Element>)
    requires SameSkeletons(auts, bs) && own < |auts|
    ensures Independent(bs, own, xs) == Independent(auts, own, xs)
  {
    forall k | 0 <= k < |xs|
      ensures LinkTransition(bs, own, own, own, xs[k]) == LinkTransition(auts, own, own, own, xs[k])
    {
      LinkTransitionSkeleton(auts, bs, own, own, own, xs[k]);
    }
    assert Links(bs, own, xs) == Links(auts, own, xs);
  }

  /** The reference unfolded by one transition. */
  lemma IndependentCons(auts: seq<Automaton>, own: nat, xs: seq<Element>)
    requires own < |auts| && |xs| > 0
    ensures var lt := LinkTransition(auts, own, own, own, xs[0]);
            var rest := Independent(auts, own, xs[1..]);
      Independent(auts, own, xs) ==
        if lt.Ok? && rest.Ok? then Ok([lt.value] + rest.value) else Err(ParseFail)
  {
    var ls := Links(auts, own, xs);
    assert ls[1..] == Links(auts, own, xs[1..]);
    AllOkCons(ls);
  }

  /** Without the carried-over automaton, linking the transitions one after
      the other is the same as linking each on its own and storing the
      results in document order: no transition's links depend on another's. */
  lemma {:induction false} FillLinksIsIndependent(auts: seq<Automaton>, own: nat, xs: seq<Element>)
    requires own < |auts|
    ensures var ref := Independent(auts, own, xs);
      && (FillLinksFrom(auts, own, xs, own, own, false).Ok? <==> ref.Ok?)
      && (ref.Ok? ==> FillLinksFrom(auts, own, xs, own, own, false).value == ApplyUpdates(auts, own, ref.value))
    decreases |xs|
  {
    if |xs| > 0 {
      IndependentCons(auts, own, xs);
      var lt := LinkTransition(auts, own, own, own, xs[0]);
      if lt.Ok? {
        var u := lt.value;
        var next := Patch(auts, own, u);
        PatchSkeleton(auts, own, own, own, xs[0]);
        FillLinksIsIndependent(next, own, xs[1..]);
        IndependentSkeleton(auts, next, own, xs[1..]);
        assert FillLinksFrom(auts, own, xs, own, own, false) == FillLinksFrom(next, own, xs[1..], own, own, false);
        var rest := Independent(auts, own, xs[1..]);
        if rest.Ok? {
          assert ([u] + rest.value)[0] == u && ([u] + rest.value)[1..] == rest.value;
        }
      }
    }
  }

  // The carried-over automaton, exhibited.

  const StateX: State := State(0, "x", [], None, None, None)

  /** Automaton "a" with transitions t1 and t2, and automaton "b"; both have
      a state named "x". */
  const TwoAutomatons: seq<Automaton> := [
    Automaton("a", [], [StateX], [Transition(0, "t1", "", Unlinked, Unlinked),
                                  Transition(1, "t2", "", Unlinked, Unlinked)], None, false),
    Automaton("b", [], [StateX], [], None, false)]

  function Leaf(tag: string, txt: string): Element {
    Element(tag, [], txt, [])
  }

  function BranchElement(tag: string, cs: seq<Element>): Element {
    Element(tag, [], "", cs)
  }

  function TransitionElement(name: string, onTrue: seq<Element>): Element {
    Element("transition", [("name", name)], "",
            [Leaf("lua_function_name", "f"), BranchElement("true", onTrue),
             BranchElement("false", [Leaf("state", "x")])])
  }

  /** t1 switches to "b" and moves to its state x; t2 only names state x. */
  const T1: Element := TransitionElement("t1", [Leaf("automaton", "b"), Leaf("state", "x")])
  const T2: Element := TransitionElement("t2", [Leaf("state", "x")])

  lemma ChildrenOfT1()
    ensures Child(T1, "true") == Some(BranchElement("true", [Leaf("automaton", "b"), Leaf("state", "x")]))
    ensures Child(T1, "false") == Some(BranchElement("false", [Leaf("state", "x")]))
    ensures Child(T1, "lua_function_name").Some? && Attr(T1, "name") == Some("t1")
  {
    assert T1.children[1..] == [T1.children[1], T1.children[2]];
    assert T1.children[1..][1..] == [T1.children[2]];
  }

  lemma ChildrenOfT2()
    ensures Child(T2, "true") == Some(BranchElement("true", [Leaf("state", "x")]))
    ensures Child(T2, "false") == Some(BranchElement("false", [Leaf("state", "x")]))
    ensures Child(T2, "lua_function_name").Some? && Attr(T2, "name") == Some("t2")
  {
    assert T2.children[1..] == [T2.children[1], T2.children[2]];
    assert T2.children[1..][1..] == [T2.children[2]];
  }

  lemma StateXBranch(auts: seq<Automaton>, eff: nat)
    requires eff < |auts| && auts[eff].states == [StateX]
    ensures LinkBranch(auts, eff, BranchElement("true", [Leaf("state", "x")]))
            == Ok((Branch(Some(Ref(eff, 0)), None, None), eff))
    ensures LinkBranch(auts, eff, BranchElement("false", [Leaf("state", "x")]))
            == Ok((Branch(Some(Ref(eff, 0)), None, None), eff))
  {
    assert StateNames(auts[eff]) == ["x"];
  }

  lemma SwitchToB()
    ensures LinkBranch(TwoAutomatons, 0, BranchElement("true", [Leaf("automaton", "b"), Leaf("state", "x")]))
            == Ok((Branch(Some(Ref(1, 0)), None, Some(1)), 1))
  {
    var x := BranchElement("true", [Leaf("automaton", "b"), Leaf("state", "x")]);
    assert x.children[1..] == [Leaf("state", "x")];
    assert AutomatonNames(TwoAutomatons) == ["a", "b"];
    assert "a"[..1] == "a" && "a"[0] != "b"[0] && "b"[..1] == "b";
    assert !IsPrefix("b", "a") && IsPrefix("b", "b");
    assert "state"[0] != "automaton"[0];
    assert ChildrenOf(x.children[1..], "automaton") == [];
    assert Child(x, "automaton") == Some(Leaf("automaton", "b"));
    assert ["a", "b"][1..] == ["b"];
    assert IndexOfPrefix(["b"], "b") == Some(0);
    assert IndexOfPrefix(["a", "b"], "b") == Some(1);
    assert Switch(TwoAutomatons, x) == Some(1);
    assert StateNames(TwoAutomatons[1]) == ["x"];
  }

  lemma FirstLink()
    ensures LinkTransition(TwoAutomatons, 0, 0, 0, T1)
            == Ok(TransitionLink(0, Transition(0, "t1", "f", Branch(Some(Ref(1, 0)), None, Some(1)),
                                               Branch(Some(Ref(0, 0)), None, None)), 1, 0))
  {
    ChildrenOfT1();
    SwitchToB();
    StateXBranch(TwoAutomatons, 0);
    assert TransitionNames(TwoAutomatons[0]) == ["t1", "t2"];
  }

  /** The first transition switches to "b"; as written, the second one's
      state x is then found in "b", not in its own automaton "a". */
  lemma SwitchLeaksIntoNextTransition()
    ensures FillLinksFrom(TwoAutomatons, 0, [T1, T2], 0, 0, true).Ok?
    ensures FillLinksFrom(TwoAutomatons, 0, [T1, T2], 0, 0, true).value[0].transitions[1].onTrue.state
            == Some(Ref(1, 0))
    ensures FillLinksFrom(TwoAutomatons, 0, [T1, T2], 0, 0, false).Ok?
    ensures FillLinksFrom(TwoAutomatons, 0, [T1, T2], 0, 0, false).value[0].transitions[1].onTrue.state
            == Some(Ref(0, 0))
  {
    FirstLink();
    var next := Patch(TwoAutomatons, 0, LinkTransition(TwoAutomatons, 0, 0, 0, T1).value);
    AfterFirstLink();
    SecondLinkFrom(next, 1, true);
    SecondLinkFrom(next, 0, false);
  }

  /** After the first transition the rest of the run goes on from the
      patched automata, with the switched-to automaton carried or not. */
  lemma AfterFirstLink()
    ensures LinkTransition(TwoAutomatons, 0, 0, 0, T1).Ok?
    ensures var next := Patch(TwoAutomatons, 0, LinkTransition(TwoAutomatons, 0, 0, 0, T1).value);
      && |next| == 2
      && TransitionNames(next[0]) == ["t1", "t2"]
      && next[0].states == [StateX] && next[1].states == [StateX]
      && FillLinksFrom(TwoAutomatons, 0, [T1, T2], 0, 0, true) == FillLinksFrom(next, 0, [T2], 1, 0, true)
      && FillLinksFrom(TwoAutomatons, 0, [T1, T2], 0, 0, false) == FillLinksFrom(next, 0, [T2], 0, 0, false)
  {
    FirstLink();
    var next := Patch(TwoAutomatons, 0, LinkTransition(TwoAutomatons, 0, 0, 0, T1).value);
    assert [T1, T2][1..] == [T2];
    assert TransitionNames(next[0]) == ["t1", "t2"];
  }

  /** The second transition, linked with its `true` branch looking names up
      in automaton `eff`. */
  lemma SecondLinkFrom(next: seq<Automaton>, eff: nat, carry: bool)
    requires |next| == 2 && eff < 2
    requires TransitionNames(next[0]) == ["t1", "t2"]
    requires next[0].states == [StateX] && next[eff].states == [StateX]
    ensures var r := FillLinksFrom(next, 0, [T2], eff, 0, carry);
      r.Ok? && r.value[0].transitions[1].onTrue.state == Some(Ref(eff, 0))
  {
    ChildrenOfT2();
    assert "t1"[1] != "t2"[1];
    assert ["t1", "t2"][1..] == ["t2"];
    assert IndexOf(["t2"], "t2") == Some(0);
    assert IndexOf(["t1", "t2"], "t2") == Some(1);
    assert FindTransition(next[0], "t2") == Some(1);
    StateXBranch(next, eff);
    StateXBranch(next, 0);
    var l := LinkTransition(next, 0, eff, 0, T2);
    assert l.Ok? && l.value.index == 1 && l.value.t.onTrue.state == Some(Ref(eff, 0));
    assert [T2][1..] == [];
    assert FillLinksFrom(next, 0, [T2], eff, 0, carry) == Ok(Patch(next, 0, l.value));
  }

  // ---------------------------------------------------------------------
  // One automaton: start state, links, CSV table and Lua state.

  datatype Parsed = Parsed(auts: seq<Automaton>, csvFile: string, luaFile: string)

  /** parse_single_automaton: the CSV and Lua file names, then the start
      state, then the links, each missing piece with its own code. */
  function ParseSingleAutomaton(auts: seq<Automaton>, i: nat, x: Element): (r: Result<Parsed, ParseError>)
    requires i < |auts|
    ensures Child(x, "csv_file").None? ==> r == Err(MissingCsv)
    ensures Child(x, "csv_file").Some? && Child(x, "lua_file").None? ==> r == Err(MissingLua)
    ensures Child(x, "csv_file").Some? && Child(x, "lua_file").Some? && Child(x, "start_state").None? ==>
              r == Err(MissingStartState)
    ensures (&& Child(x, "csv_file").Some? && Child(x, "lua_file").Some? && Child(x, "start_state").Some?
             && FindState(auts[i], Child(x, "start_state").value.txt).None?) ==> r == Err(InvalidStartState)
    ensures r.Ok? ==>
              && r.value.csvFile == Clip(Child(x, "csv_file").value.txt, MaxFilenameLen)
              && r.value.luaFile == Clip(Child(x, "lua_file").value.txt, MaxFilenameLen)
    ensures r.Ok? ==> SameSkeletons(auts, r.value.auts)
    ensures r.Ok? ==> forall j :: 0 <= j < |auts| && j != i ==> r.value.auts[j] == auts[j]
    ensures r.Ok? ==> r.value.auts[i] == auts[i].(transitions := r.value.auts[i].transitions,
                                                  startState := r.value.auts[i].startState)
    ensures r.Ok? ==> r.value.auts[i].startState == FindState(auts[i], Child(x, "start_state").value.txt)
    ensures r.Ok? ==> r.value.auts[i].startState.Some?
    ensures r.Ok? && AllTransitionsOk(auts, auts[i]) ==> AllTransitionsOk(r.value.auts, r.value.auts[i])
  {
    var csv := Child(x, "csv_file");
    var lua := Child(x, "lua_file");
    var ss := Child(x, "start_state");
    if csv.None? then Err(MissingCsv)
    else if lua.None? then Err(MissingLua)
    else if ss.None? then Err(MissingStartState)
    else
      match FindState(auts[i], ss.value.txt)
      case None => Err(InvalidStartState)
      case Some(k) =>
        var started := auts[i := auts[i].(startState := Some(k))];
        assert StateNames(started[i]) == StateNames(auts[i]);
        AllTransitionsOkSkeleton(auts, started, auts[i]);
        match FillLinks(started, i, x)
        case Err(e) => Err(e)
        case Ok(b) =>
          SkeletonsTrans(auts, started, b);
          Ok(Parsed(b, Clip(csv.value.txt, MaxFilenameLen), Clip(lua.value.txt, MaxFilenameLen)))
  }

  /** The file `name` as the loader would read it, or None if it cannot be opened. */
  function Open(files: map<string, seq<string>>, name: string): Option<seq<string>> {
    if name in files then Some(files[name]) else None
  }

  /** Every reference in automaton `i` is valid, its slots included. */
  predicate Sound(auts: seq<Automaton>, i: nat)
    requires i < |auts|
  {
    AllTransitionsOk(auts, auts[i]) && SlotsValid(auts[i])
  }

  /** init_automaton_links: parse the automaton's XML, load its CSV table,
      then open its Lua state and set up the callback globals for the match.
      A Lua script that fails to load is only logged, so the Lua file is
      never consulted. On an error the globals are untouched. */
  function InitAutomatonLinks(auts: seq<Automaton>, i: nat, x: Element, files: map<string, seq<string>>,
                              g: LuaCallbacks.Globals, matchState: nat)
    : (r: Result<(seq<Automaton>, LuaCallbacks.Globals), LinkError>)
    requires i < |auts| && IdsFit(auts[i])
    ensures ParseSingleAutomaton(auts, i, x).Err? <==> r == Err(TransitionFileFail)
    ensures (&& ParseSingleAutomaton(auts, i, x).Ok?
             && ParseSingleAutomaton(auts, i, x).value.csvFile !in files) ==> r == Err(CsvFileFail)
    ensures r.Ok? ==> r.value.1 == LuaCallbacks.SetUp(g, matchState)
    ensures r.Ok? ==> SameSkeletons(auts, r.value.0)
    ensures r.Ok? ==> forall j :: 0 <= j < |auts| && j != i ==> r.value.0[j] == auts[j]
    ensures r.Ok? ==> r.value.0[i].luaLoaded && r.value.0[i].startState.Some?
    ensures r.Ok? ==> r.value.0[i].events == auts[i].events
    ensures r.Ok? && Sound(auts, i) ==> Sound(r.value.0, i) && AutomatonOk(r.value.0, r.value.0[i])
  {
    match ParseSingleAutomaton(auts, i, x)
    case Err(_) => Err(TransitionFileFail)
    case Ok(p) =>
      var a := p.auts[i];
      match LoadCsv(a, Open(files, p.csvFile))
      case Err(_) => Err(CsvFileFail)
      case Ok(loaded) =>
        var b := p.auts[i := loaded.(luaLoaded := true)];
        InitKeepsSound(auts, i, p.auts, loaded);
        Ok((b, LuaCallbacks.SetUp(g, matchState)))
  }

  /** Loading the CSV table and opening the Lua state keep the names and
      sizes, and a sound automaton stays sound. */
  lemma InitKeepsSound(auts: seq<Automaton>, i: nat, ps: seq<Automaton>, loaded: Automaton)
    requires i < |auts| && SameSkeletons(auts, ps)
    requires ps[i] == auts[i].(transitions := ps[i].transitions, startState := ps[i].startState)
    requires ps[i].startState.Some? ==> ps[i].startState.value < |ps[i].states|
    requires AllTransitionsOk(auts, auts[i]) ==> AllTransitionsOk(ps, ps[i])
    requires SameShape(ps[i], loaded) && (SlotsValid(ps[i]) ==> SlotsValid(loaded))
    ensures var b := ps[i := loaded.(luaLoaded := true)];
      && SameSkeletons(auts, b)
      && (Sound(auts, i) ==> Sound(b, i) && AutomatonOk(b, b[i]))
  {
    var b := ps[i := loaded.(luaLoaded := true)];
    assert StateNames(b[i]) == StateNames(ps[i]);
    SkeletonsTrans(auts, ps, b);
    if Sound(auts, i) {
      AllTransitionsOkSkeleton(ps, b, ps[i]);
      assert SlotsValid(ps[i]) by {
        forall s | 0 <= s < |ps[i].states| ensures SlotsOk(ps[i], ps[i].states[s]) {
          assert SlotsOk(auts[i], auts[i].states[s]);
        }
      }
      assert AllTransitionsOk(b, b[i]);
      assert SlotsValid(b[i]) by {
        forall s | 0 <= s < |b[i].states| ensures SlotsOk(b[i], b[i].states[s]) {
          assert SlotsOk(loaded, loaded.states[s]);
        }
      }
    }
  }

  // ---------------------------------------------------------------------
  // The whole set.

  /** How far the per-automaton initialisation got: the automatons, the
      callback globals, and how many automatons were initialised. */
  datatype LinkRun = LinkRun(auts: seq<Automaton>, globals: LuaCallbacks.Globals, linked: nat)

  predicate Ready(a: Automaton) {
    a.luaLoaded && a.startState.Some?
  }

  function LinksFrom(xs: seq<Element>, auts: seq<Automaton>, i: nat, files: map<string, seq<string>>,
                     g: LuaCallbacks.Globals, matchState: nat): (r: LinkRun)
    requires |xs| == |auts| && i <= |auts|
    requires forall k :: i <= k < |auts| ==> IdsFit(auts[k])
    ensures i <= r.linked <= |auts|
    ensures SameSkeletons(auts, r.auts)
    ensures r.globals.references == g.references + (r.linked - i)
    ensures forall k :: r.linked < k < |auts| ==> r.auts[k] == auts[k]
    ensures forall k :: i <= k < r.linked ==> Ready(r.auts[k])
    ensures forall k :: 0 <= k < i ==> r.auts[k] == auts[k]
    ensures SetOk(auts) && (forall k :: i <= k < |auts| ==> SlotsValid(auts[k])) ==> SetOk(r.auts)
    decreases |auts| - i
  {
    if i == |auts| then LinkRun(auts, g, i)
    else
      match InitAutomatonLinks(auts, i, xs[i], files, g, matchState)
      case Err(_) => LinkRun(auts, g, i)
      case Ok(step) =>
        var b := step.0;
        SetOkStep(auts, b, i);
        var r := LinksFrom(xs, b, i + 1, files, step.1, matchState);
        LinksStep(auts, b, r, i, g.references);
        r
  }

  /** One linked automaton followed by the run over the rest is a run from
      `i`. */
  lemma LinksStep(auts: seq<Automaton>, b: seq<Automaton>, r: LinkRun, i: nat, refs: nat)
    requires i < |auts| && SameSkeletons(auts, b)
    requires forall j :: 0 <= j < |auts| && j != i ==> b[j] == auts[j]
    requires Ready(b[i])
    requires SetOk(auts) && SlotsValid(auts[i]) ==> SetOk(b) && SlotsValid(b[i])
    requires i + 1 <= r.linked <= |b|
    requires SameSkeletons(b, r.auts)
    requires r.globals.references == refs + 1 + (r.linked - (i + 1))
    requires forall k :: r.linked < k < |b| ==> r.auts[k] == b[k]
    requires forall k :: i + 1 <= k < r.linked ==> Ready(r.auts[k])
    requires forall k :: 0 <= k < i + 1 ==> r.auts[k] == b[k]
    requires SetOk(b) && (forall k :: i + 1 <= k < |b| ==> SlotsValid(b[k])) ==> SetOk(r.auts)
    ensures SameSkeletons(auts, r.auts)
    ensures r.globals.references == refs + (r.linked - i)
    ensures forall k :: r.linked < k < |auts| ==> r.auts[k] == auts[k]
    ensures forall k :: i <= k < r.linked ==> Ready(r.auts[k])
    ensures forall k :: 0 <= k < i ==> r.auts[k] == auts[k]
    ensures SetOk(auts) && (forall k :: i <= k < |auts| ==> SlotsValid(auts[k])) ==> SetOk(r.auts)
  {
    SkeletonsTrans(auts, b, r.auts);
    assert r.auts[i] == b[i];
  }

  /** The step of LinksFrom that keeps the whole set sound. */
  lemma SetOkStep(auts: seq<Automaton>, b: seq<Automaton>, i: nat)
    requires i < |auts| && SameSkeletons(auts, b)
    requires forall j :: 0 <= j < |auts| && j != i ==> b[j] == auts[j]
    requires Sound(auts, i) ==> AutomatonOk(b, b[i]) && SlotsValid(b[i])
    ensures SetOk(auts) && SlotsValid(auts[i]) ==> SetOk(b) && SlotsValid(b[i])
  {
    if SetOk(auts) && SlotsValid(auts[i]) {
      assert AllTransitionsOk(auts, auts[i]) by {
        assert AutomatonOk(auts, auts[i]);
      }
      forall k | 0 <= k < |b| ensures AutomatonOk(b, b[k]) {
        if k != i {
          assert AutomatonOk(auts, auts[k]);
          AutomatonOkSkeleton(auts, b, auts[k]);
        }
      }
    }
  }

  /** What parse_automaton_set_xml_file leaves behind: the automatons created
      (all of which destroy_automaton_set will destroy), the start automaton,
      the callback globals, and the error, if any. */
  datatype SetOutcome = SetOutcome(loaded: AutomatonSet, globals: LuaCallbacks.Globals, error: Option<XmlError>)

  /** Every automaton the factories build has one slot per event id, and no
      slot bound yet. */
  predicate FactoryFits(events: () -> seq<Event>, states: nat -> seq<State>) {
    IdsFit(CreateAutomaton(events, states)) && SlotsValid(CreateAutomaton(events, states))
  }

  /** The last two steps of parse_automaton_set_xml_file, once pass 2 has
      named the automatons: initialise each one in order, then find the
      start automaton. */
  function LinkAndStart(d: Element, named: seq<Automaton>, files: map<string, seq<string>>,
                        g: LuaCallbacks.Globals, matchState: nat): (r: SetOutcome)
    requires |named| == |Children(d, "automaton")|
    requires forall k :: 0 <= k < |named| ==> IdsFit(named[k])
    ensures SameSkeletons(named, r.loaded.automatons)
    ensures r.error != Some(LoadFail)
    ensures g.references <= r.globals.references <= g.references + |named|
    ensures r.error.None? ==>
              && r.globals.references == g.references + |named|
              && (forall k :: 0 <= k < |named| ==> Ready(r.loaded.automatons[k]))
              && Child(d, "start_automaton").Some?
              && r.loaded.start == GetAutomatonByName(r.loaded.automatons, Child(d, "start_automaton").value.txt)
              && r.loaded.start.Some?
    ensures r.error == Some(StartAutomatonBad) ==> r.globals.references == g.references + |named|
    ensures SetOk(named) && (forall k :: 0 <= k < |named| ==> SlotsValid(named[k])) ==> SetOk(r.loaded.automatons)
  {
    var run := LinksFrom(Children(d, "automaton"), named, 0, files, g, matchState);
    if run.linked < |named| then SetOutcome(AutomatonSet(run.auts, None), run.globals, Some(LinksFail))
    else
      match Child(d, "start_automaton")
      case None => SetOutcome(AutomatonSet(run.auts, None), run.globals, Some(StartAutomatonBad))
      case Some(sa) =>
        match GetAutomatonByName(run.auts, sa.txt)
        case None => SetOutcome(AutomatonSet(run.auts, None), run.globals, Some(StartAutomatonBad))
        case Some(s) => SetOutcome(AutomatonSet(run.auts, Some(s)), run.globals, None)
  }

  /** parse_automaton_set_xml_file. `doc` is None when the file cannot be
      parsed as XML. */
  function ParseAutomatonSetXml(doc: Option<Element>, events: () -> seq<Event>, states: nat -> seq<State>,
                                files: map<string, seq<string>>, g: LuaCallbacks.Globals,
                                matchState: nat): (r: SetOutcome)
    requires IdsFit(CreateAutomaton(events, states))
    ensures doc.None? ==> r == SetOutcome(AutomatonSet([], None), g, Some(LoadFail))
    ensures doc.Some? ==> |r.loaded.automatons| == |Children(doc.value, "automaton")|
    ensures g.references <= r.globals.references <= g.references + |r.loaded.automatons|
    ensures r.error.None? ==>
              && r.globals.references == g.references + |r.loaded.automatons|
              && (forall k :: 0 <= k < |r.loaded.automatons| ==> Ready(r.loaded.automatons[k]))
              && r.loaded.start.Some? && r.loaded.start.value < |r.loaded.automatons|
              && doc.Some? && Child(doc.value, "start_automaton").Some?
              && IsPrefix(Child(doc.value, "start_automaton").value.txt,
                          r.loaded.automatons[r.loaded.start.value].name)
    ensures r.error.None? && FactoryFits(events, states) ==> SetOk(r.loaded.automatons)
    ensures doc.Some? && ParseAutomatonNames(doc.value, CreateAutomatonsFromXml(doc.value, events, states)).Err?
            ==> r.error == Some(LinksFail) && r.globals == g
    ensures r.error == Some(StartAutomatonBad) ==>
              r.globals.references == g.references + |r.loaded.automatons|
    ensures forall k :: 0 <= k < |r.loaded.automatons| ==>
              SameStates(CreateAutomaton(events, states), r.loaded.automatons[k])
  {
    match doc
    case None => SetOutcome(AutomatonSet([], None), g, Some(LoadFail))
    case Some(d) =>
      var created := CreateAutomatonsFromXml(d, events, states);
      match ParseAutomatonNames(d, created)
      case Err(e) => SetOutcome(AutomatonSet(created, None), g, Some(e))
      case Ok(named) =>
        NamedStates(Children(d, "automaton"), created, named, events, states);
        NamedSetOk(Children(d, "automaton"), created, named, events, states);
        var r := LinkAndStart(d, named, files, g, matchState);
        StatesThrough(CreateAutomaton(events, states), named, r.loaded.automatons);
        r
  }

  /** Pass 2 keeps the factory's states and their slot counts. */
  lemma NamedStates(xs: seq<Element>, created: seq<Automaton>, named: seq<Automaton>,
                    events: () -> seq<Event>, states: nat -> seq<State>)
    requires |xs| == |created| == |named|
    requires forall k :: 0 <= k < |created| ==> created[k] == CreateAutomaton(events, states)
    requires forall k :: 0 <= k < |created| ==> NamedAs(xs[k], created[k], named[k])
    ensures forall k :: 0 <= k < |named| ==> SameStates(CreateAutomaton(events, states), named[k])
    ensures IdsFit(CreateAutomaton(events, states)) ==> forall k :: 0 <= k < |named| ==> IdsFit(named[k])
  {
    forall k | 0 <= k < |named| ensures named[k].states == created[k].states && named[k].events == created[k].events {
      assert NamedAs(xs[k], created[k], named[k]);
    }
  }

  lemma StatesThrough(f: Automaton, named: seq<Automaton>, final: seq<Automaton>)
    requires forall k :: 0 <= k < |named| ==> SameStates(f, named[k])
    requires SameSkeletons(named, final)
    ensures forall k :: 0 <= k < |final| ==> SameStates(f, final[k])
  {
    forall k | 0 <= k < |final| ensures SameStates(f, final[k]) {
      assert SameSkeleton(named[k], final[k]);
    }
  }

  /** After pass 2 every reference is still valid: no transition is linked,
      no slot is bound unless the factory bound it, and no start state is set. */
  lemma NamedSetOk(xs: seq<Element>, created: seq<Automaton>, named: seq<Automaton>,
                   events: () -> seq<Event>, states: nat -> seq<State>)
    requires |xs| == |created| == |named|
    requires forall k :: 0 <= k < |created| ==> created[k] == CreateAutomaton(events, states)
    requires forall k :: 0 <= k < |created| ==> NamedAs(xs[k], created[k], named[k])
    ensures FactoryFits(events, states) ==>
              SetOk(named) && forall k :: 0 <= k < |named| ==> SlotsValid(named[k])
  {
    if FactoryFits(events, states) {
      forall k | 0 <= k < |named| ensures AutomatonOk(named, named[k]) && SlotsValid(named[k]) {
        assert NamedAs(xs[k], created[k], named[k]);
        var c := created[k];
        assert SlotsValid(c);
        forall s | 0 <= s < |named[k].states| ensures SlotsOk(named[k], named[k].states[s]) {
          assert SlotsOk(c, c.states[s]);
          assert |c.transitions| == 0;
        }
      }
    }
  }

  /** The game's factories fit: eight event ids, eight slots per state, and
      no slot bound. */
  lemma GameFactoriesFit()
    ensures FactoryFits(CreateAutomatonEvents, CreateOAutomatonStates)
  {
    var a := CreateAutomaton(CreateAutomatonEvents, CreateOAutomatonStates);
    GameAutomatonShape();
  }
}

/** The threat-feed updater: which feeds are fetched, and how the two blocklist sets are programmed. */
module IntelUpdater {
  import opened Basics
  import FilterTheorem
  import opened Net
  import opened NetText
  import opened PolicyModel
  import opened Registry
  import Sem = PolicySemantics
  import opened WellFormedness

  // ---- the enabled feeds ----

  datatype FeedError = UnknownFeed(name: string) | LicenceForbids(name: string)

  function CustomOf(c: CustomFeed): Feed {
    Feed(c.name, true, true)
  }

  function CustomsOf(cs: seq<CustomFeed>): seq<Feed> {
    seq(|cs|, i requires 0 <= i < |cs| => CustomOf(cs[i]))
  }

  function BuiltinsOf(fs: seq<FeedEnable>, commercialUse: bool): Result<seq<Feed>, FeedError> {
    if fs == [] then Success([])
    else if !fs[0].enabled then BuiltinsOf(fs[1..], commercialUse)
    else
      match Lookup(fs[0].name)
      case None => Failure(UnknownFeed(fs[0].name))
      case Some(f) =>
        if !MayEnable(f, commercialUse) then Failure(LicenceForbids(f.name))
        else
          var rest :- BuiltinsOf(fs[1..], commercialUse);
          Success([f] + rest)
  }

  function FeedsOf(intel: Option<Intel>): Result<seq<Feed>, FeedError> {
    if intel.None? then Success([])
    else
      var n := intel.value;
      var builtin :- BuiltinsOf(n.feeds, n.commercialUse);
      Success(builtin + CustomsOf(n.customFeeds))
  }

  lemma BuiltinsFrom(fs: seq<FeedEnable>, commercialUse: bool, i: nat, done: seq<Feed>)
    requires i < |fs|
    ensures !fs[i].enabled ==>
              After(done, BuiltinsOf(fs[i..], commercialUse)) == After(done, BuiltinsOf(fs[i + 1..], commercialUse))
    ensures fs[i].enabled && Lookup(fs[i].name).Some? && MayEnable(Lookup(fs[i].name).value, commercialUse) ==>
              After(done, BuiltinsOf(fs[i..], commercialUse)) ==
              After(done + [Lookup(fs[i].name).value], BuiltinsOf(fs[i + 1..], commercialUse))
  {
    hide Lookup, MayEnable;
    assert fs[i..][1..] == fs[i + 1..];
    if fs[i].enabled && Lookup(fs[i].name).Some? && BuiltinsOf(fs[i + 1..], commercialUse).Success? {
      var f, rest := Lookup(fs[i].name).value, BuiltinsOf(fs[i + 1..], commercialUse).value;
      assert done + ([f] + rest) == (done + [f]) + rest;
    }
  }

  method EnabledBuiltins(fs: seq<FeedEnable>, commercialUse: bool) returns (out: Result<seq<Feed>, FeedError>)
    ensures out == BuiltinsOf(fs, commercialUse)
  {
    hide Lookup, MayEnable;
    var done: seq<Feed> := [];
    assert fs[0..] == fs;
    for i := 0 to |fs|
      invariant BuiltinsOf(fs, commercialUse) == After(done, BuiltinsOf(fs[i..], commercialUse))
    {
      assert fs[i..][0] == fs[i];
      BuiltinsFrom(fs, commercialUse, i, done);
      if !fs[i].enabled {
        continue;
      }
      var f := Lookup(fs[i].name);
      if f.None? {
        return Failure(UnknownFeed(fs[i].name));
      }
      if !MayEnable(f.value, commercialUse) {
        return Failure(LicenceForbids(f.value.name));
      }
      done := done + [f.value];
    }
    return Success(done);
  }

  method EnabledFeeds(intel: Option<Intel>) returns (out: Result<seq<Feed>, FeedError>)
    ensures out == FeedsOf(intel)
  {
    if intel.None? {
      return Success([]);
    }
    var builtin := EnabledBuiltins(intel.value.feeds, intel.value.commercialUse);
    if builtin.Failure? {
      return Failure(builtin.error);
    }
    var feeds := builtin.value;
    var customs := intel.value.customFeeds;
    for i := 0 to |customs|
      invariant feeds == builtin.value + CustomsOf(customs)[..i]
    {
      feeds := feeds + [CustomOf(customs[i])];
    }
    assert CustomsOf(customs)[..|customs|] == CustomsOf(customs);
    return Success(feeds);
  }

  ghost predicate FeedFits(f: FeedEnable, commercialUse: bool) {
    f.enabled ==> Lookup(f.name).Some? && MayEnable(Lookup(f.name).value, commercialUse)
  }

  lemma {:induction false} BuiltinsFit(fs: seq<FeedEnable>, commercialUse: bool)
    requires forall f :: f in fs ==> FeedFits(f, commercialUse)
    ensures BuiltinsOf(fs, commercialUse).Success?
    ensures forall g :: g in BuiltinsOf(fs, commercialUse).value ==>
              g in BUILTINS && MayEnable(g, commercialUse) && exists f :: f in fs && f.enabled && f.name == g.name
    ensures BuiltinsOf(fs, commercialUse).value != [] <==> exists f :: f in fs && f.enabled
  {
    if fs != [] {
      assert fs[0] in fs && forall f :: f in fs[1..] ==> f in fs;
      assert forall f :: f in fs ==> f == fs[0] || f in fs[1..];
      BuiltinsFit(fs[1..], commercialUse);
      LookupInFinds(BUILTINS, fs[0].name);
    }
  }

  /** The registry has this feed, and its licence allows the declared use. */
  ghost predicate Permitted(name: string, commercialUse: bool) {
    exists b :: b in BUILTINS && b.name == name && (commercialUse ==> b.allowCommercial)
  }

  lemma BuiltinNames(a: Feed, b: Feed)
    requires a in BUILTINS && b in BUILTINS && a.name == b.name
    ensures a == b
  {
  }

  lemma LookedUp(name: string, commercialUse: bool)
    ensures forall b :: b in BUILTINS && b.name == name ==> Lookup(name) == Some(b)
    ensures Lookup(name).Some? ==> Lookup(name).value in BUILTINS && Lookup(name).value.name == name
    ensures Permitted(name, commercialUse)
            <==> Lookup(name).Some? && (commercialUse ==> Lookup(name).value.allowCommercial)
  {
    LookupInFinds(BUILTINS, name);
    forall b | b in BUILTINS && b.name == name
      ensures Lookup(name) == Some(b)
    {
      BuiltinNames(b, Lookup(name).value);
    }
    hide LookupIn;
  }

  /** An enabled entry of this name. */
  predicate Enables(fs: seq<FeedEnable>, name: string) {
    exists f :: f in fs && f.enabled && f.name == name
  }

  lemma EnablesFirst(fs: seq<FeedEnable>, name: string)
    requires fs != []
    ensures Enables(fs, name) <==> (fs[0].enabled && fs[0].name == name) || Enables(fs[1..], name)
  {
    assert fs == [fs[0]] + fs[1..];
  }

  /** Which lists of built-in feeds are refused, for which feed, and what the others select. */
  lemma {:induction false} BuiltinsAre(fs: seq<FeedEnable>, commercialUse: bool)
    ensures BuiltinsOf(fs, commercialUse).Success?
            <==> forall name :: Enables(fs, name) ==> Permitted(name, commercialUse)
    ensures BuiltinsOf(fs, commercialUse).Failure? ==>
              var e := BuiltinsOf(fs, commercialUse).error;
              && Enables(fs, e.name) && !Permitted(e.name, commercialUse)
              && (e.UnknownFeed? <==> forall b :: b in BUILTINS ==> b.name != e.name)
    ensures BuiltinsOf(fs, commercialUse).Success? ==>
              forall b :: b in BuiltinsOf(fs, commercialUse).value <==> b in BUILTINS && Enables(fs, b.name)
  {
    hide Lookup, Permitted, Enables, BUILTINS;
    if fs == [] {
      assert forall name :: !Enables([], name) by {
        NoneEnabled();
      }
    } else {
      BuiltinsAre(fs[1..], commercialUse);
      forall name
        ensures Enables(fs, name) <==> (fs[0].enabled && fs[0].name == name) || Enables(fs[1..], name)
      {
        EnablesFirst(fs, name);
      }
      LookedUp(fs[0].name, commercialUse);
    }
  }

  lemma NoneEnabled()
    ensures forall name :: !Enables([], name)
  {
  }

  /**
    The feed list, for every intelligence section: it is refused exactly if some enabled built-in feed is
    not registered or its licence does not allow the declared use; otherwise it holds exactly the enabled
    built-in feeds and every custom one.
   */
  lemma FeedsAre(n: Intel)
    ensures FeedsOf(None) == Success([])
    ensures FeedsOf(Some(n)).Success? <==> forall name :: Enables(n.feeds, name) ==> Permitted(name, n.commercialUse)
    ensures FeedsOf(Some(n)).Success? ==>
              forall g :: g in FeedsOf(Some(n)).value <==>
                || (g in BUILTINS && Enables(n.feeds, g.name))
                || exists c :: c in n.customFeeds && g == Feed(c.name, true, true)
  {
    BuiltinsAre(n.feeds, n.commercialUse);
    hide BuiltinsOf, Permitted, Enables, BUILTINS;
    if FeedsOf(Some(n)).Success? {
      forall g
        ensures g in CustomsOf(n.customFeeds) <==> exists c :: c in n.customFeeds && g == Feed(c.name, true, true)
      {
        CustomsAre(n.customFeeds, g);
      }
    }
  }

  lemma CustomsAre(cs: seq<CustomFeed>, g: Feed)
    ensures g in CustomsOf(cs) <==> exists c :: c in cs && g == Feed(c.name, true, true)
  {
    if c :| c in cs && g == Feed(c.name, true, true) {
      var i :| 0 <= i < |cs| && cs[i] == c;
      assert CustomsOf(cs)[i] == g;
    }
  }

  /**
    The updater agrees with the compiler and the licence gate: for every well-formed policy the
    feed list never fails, every built-in feed in it permits the declared use, and it is non-empty
    exactly when the ruleset that the policy renders to declares the blocklist sets.
   */
  lemma FeedsAgree(p: Policy)
    requires WellFormed(p)
    ensures FeedsOf(p.intel).Success?
    ensures forall f :: f in FeedsOf(p.intel).value && !f.custom ==>
              f in BUILTINS && (p.intel.value.commercialUse ==> f.allowCommercial)
    ensures FeedsOf(p.intel).value != [] <==> Sem.IntelOn(p)
    ensures FilterTheorem.Rendered(p).Some? ==>
              (FeedsOf(p.intel).value != [] <==> FilterTheorem.Rendered(p).value.intelSets)
  {
    FeedsNonEmpty(p);
    hide FeedsOf, WellFormed, Sem.IntelOn, FilterTheorem.Rendered, BUILTINS;
    if FilterTheorem.Rendered(p).Some? {
      FilterTheorem.DeclaresSetsIff(p);
    }
  }

  lemma FeedsNonEmpty(p: Policy)
    requires WellFormed(p)
    ensures FeedsOf(p.intel).Success?
    ensures forall f :: f in FeedsOf(p.intel).value && !f.custom ==>
              f in BUILTINS && MayEnable(f, p.intel.value.commercialUse)
    ensures FeedsOf(p.intel).value != [] <==> Sem.IntelOn(p)
  {
    if p.intel.Some? {
      var n := p.intel.value;
      forall f | f in n.feeds
        ensures FeedFits(f, n.commercialUse)
      {
        var i :| 0 <= i < |n.feeds| && n.feeds[i] == f;
        assert FeedOk(n, i);
      }
      BuiltinsFit(n.feeds, n.commercialUse);
    }
  }

  // ---- programming the sets ----

  /** The contents of the sets, as the element texts nft is given. */
  datatype Sets = Sets(v4: set<string>, v6: set<string>)

  datatype Statement = Flush(family: Family) | AddElements(family: Family, elements: seq<string>)

  function RunStatement(s: Sets, st: Statement): Sets {
    match st
    case Flush(V4) => s.(v4 := {})
    case Flush(V6) => s.(v6 := {})
    case AddElements(V4, es) => s.(v4 := s.v4 + (set e | e in es))
    case AddElements(V6, es) => s.(v6 := s.v6 + (set e | e in es))
  }

  /** nft runs the script as one transaction, statement by statement. */
  function RunScript(s: Sets, script: seq<Statement>): Sets {
    if script == [] then s
    else RunStatement(RunScript(s, script[..|script| - 1]), script[|script| - 1])
  }

  lemma RunSnoc(s: Sets, script: seq<Statement>, st: Statement)
    ensures RunScript(s, script + [st]) == RunStatement(RunScript(s, script), st)
  {
    assert (script + [st])[..|script|] == script;
  }

  /** Cut a list into pieces of the given size: nothing lost or reordered, and only the last may be short. */
  method Chunks<T>(items: seq<T>, size: nat) returns (out: seq<seq<T>>)
    requires size > 0
    ensures Flatten(out) == items
    ensures forall i :: 0 <= i < |out| ==> 1 <= |out[i]| <= size
    ensures forall i :: 0 <= i < |out| - 1 ==> |out[i]| == size
  {
    out := [];
    var rest := items;
    while |rest| > size
      invariant Flatten(out) + rest == items
      invariant forall i :: 0 <= i < |out| ==> |out[i]| == size
      decreases |rest|
    {
      FlattenSnoc(out, rest[..size]);
      MoveBrackets(Flatten(out), rest[..size], rest[size..], items);
      out := out + [rest[..size]];
      rest := rest[size..];
    }
    if |rest| > 0 {
      FlattenSnoc(out, rest);
      out := out + [rest];
    } else {
      assert Flatten(out) + rest == Flatten(out);
    }
  }

  const CHUNK := 1000

  ghost function Added(s: Sets, family: Family, elements: set<string>): Sets {
    if family == V4 then s.(v4 := s.v4 + elements) else s.(v6 := s.v6 + elements)
  }

  /** Append the statements that add a family's elements, a thousand at a time. */
  method AddChunks(script: seq<Statement>, family: Family, items: seq<string>) returns (out: seq<Statement>)
    ensures forall s: Sets :: RunScript(s, out) == Added(RunScript(s, script), family, Elems(items))
  {
    var pieces := Chunks(items, CHUNK);
    out := script;
    assert pieces[..0] == [] && Elems(Flatten(pieces[..0])) == {};
    for i := 0 to |pieces|
      invariant forall s: Sets :: RunScript(s, out) == Added(RunScript(s, script), family, Elems(Flatten(pieces[..i])))
    {
      assert pieces[..i + 1] == pieces[..i] + [pieces[i]];
      FlattenSnoc(pieces[..i], pieces[i]);
      forall s: Sets
        ensures RunScript(s, out + [AddElements(family, pieces[i])])
             == RunStatement(RunScript(s, out), AddElements(family, pieces[i]))
      {
        RunSnoc(s, out, AddElements(family, pieces[i]));
      }
      out := out + [AddElements(family, pieces[i])];
    }
    assert pieces[..|pieces|] == pieces;
  }

  /** Whatever the sets held before, the script leaves exactly the given elements in them. */
  method SetScript(v4: seq<string>, v6: seq<string>) returns (script: seq<Statement>)
    ensures forall s: Sets :: RunScript(s, script) == Sets(Elems(v4), Elems(v6))
  {
    script := [Flush(V4), Flush(V6)];
    forall s: Sets
      ensures RunScript(s, script) == Sets({}, {})
    {
      assert script[..1] == [] + [Flush(V4)] && script == script[..1] + [Flush(V6)];
      RunSnoc(s, [], Flush(V4));
      RunSnoc(s, script[..1], Flush(V6));
    }
    script := AddChunks(script, V4, v4);
    script := AddChunks(script, V6, v6);
  }

  // ---- a refresh ----

  ghost function Texts(ps: set<Prefix>, family: Family): set<string> {
    set p | p in ps && p.addr.family == family :: PrefixText(p)
  }

  /** The list holds the text of every prefix of that family, each once. */
  ghost predicate Lists(v: seq<string>, ps: set<Prefix>, family: Family) {
    Elems(v) == Texts(ps, family) && NoDup(v)
  }

  lemma ListsPlus(v: seq<string>, done: set<Prefix>, p: Prefix, family: Family)
    requires p !in done && Lists(v, done, family)
    ensures Lists(if p.addr.family == family then v + [PrefixText(p)] else v, done + {p}, family)
  {
    TextIsNew(done, p);
    TextsPlus(done, p);
    NoDupSnoc(v, PrefixText(p));
    ElemsSnoc(v, PrefixText(p));
  }

  /** The printed prefixes of each family, each once. */
  method Partition(merged: set<Prefix>) returns (v4: seq<string>, v6: seq<string>)
    ensures Lists(v4, merged, V4) && Lists(v6, merged, V6)
    ensures |v4| + |v6| == |merged|
  {
    v4, v6 := [], [];
    var rest := merged;
    while rest != {}
      invariant rest <= merged && |v4| + |v6| + |rest| == |merged|
      invariant Lists(v4, merged - rest, V4) && Lists(v6, merged - rest, V6)
      decreases |rest|
    {
      hide Lists, PrefixText;
      var p :| p in rest;
      assert merged - (rest - {p}) == (merged - rest) + {p};
      ListsPlus(v4, merged - rest, p, V4);
      ListsPlus(v6, merged - rest, p, V6);
      if p.addr.family == V4 {
        v4 := v4 + [PrefixText(p)];
      } else {
        v6 := v6 + [PrefixText(p)];
      }
      rest := rest - {p};
    }
    assert merged - rest == merged;
  }

  lemma TextIsNew(done: set<Prefix>, p: Prefix)
    requires p !in done
    ensures PrefixText(p) !in Texts(done, p.addr.family)
  {
    hide PrefixText;
    forall q | q in done
      ensures PrefixText(q) != PrefixText(p)
    {
      if PrefixText(q) == PrefixText(p) {
        PrefixTextInjective(p, q);
      }
    }
  }

  lemma TextsPlus(done: set<Prefix>, p: Prefix)
    ensures forall f :: Texts(done + {p}, f) == Texts(done, f) + (if p.addr.family == f then {PrefixText(p)} else {})
  {
    hide PrefixText;
  }

  /** All prefixes of the feeds that could be fetched. */
  ghost function Merged(fetched: seq<Option<seq<Prefix>>>): set<Prefix> {
    set o, p | o in fetched && o.Some? && p in o.value :: p
  }

  method Merge(fetched: seq<Option<seq<Prefix>>>) returns (merged: set<Prefix>)
    ensures merged == Merged(fetched)
  {
    merged := {};
    for i := 0 to |fetched|
      invariant merged == Merged(fetched[..i])
    {
      assert fetched[..i + 1] == fetched[..i] + [fetched[i]];
      if fetched[i].Some? {
        merged := merged + (set p | p in fetched[i].value);
      }
    }
    assert fetched[..|fetched|] == fetched;
  }

  /**
    What a refresh leaves in the sets, or None if it leaves them alone: when the running policy cannot
    be read, its feeds are not valid or none is enabled, or nft refuses the script.
   */
  ghost function RefreshOutcome(running: Option<Policy>, fetched: seq<Option<seq<Prefix>>>,
                                accepted: bool): Option<Sets> {
    if running.None? || FeedsOf(running.value.intel).Failure? || FeedsOf(running.value.intel).value == [] || !accepted
    then None
    else Some(Sets(Texts(Merged(fetched), V4), Texts(Merged(fetched), V6)))
  }

  datatype RefreshError = NoRunningPolicy | BadFeeds(error: FeedError) | NftFailed

  /** The updater with the kernel sets it programs. */
  class Updater {
    var sets: Sets
    var lastEntries: nat

    constructor (sets: Sets)
      ensures this.sets == sets && lastEntries == 0
    {
      this.sets, lastEntries := sets, 0;
    }

    /**
      One refresh. `running` is the running policy if it could be read, `fetched` what came back
      for each feed in turn, and `accepted` whether nft runs the script.
     */
    method Refresh(running: Option<Policy>, fetched: seq<Option<seq<Prefix>>>, accepted: bool)
      returns (r: Result<nat, RefreshError>)
      modifies this
      ensures r.Failure? ==> lastEntries == old(lastEntries)
      ensures r.Failure? && r.error.NoRunningPolicy? <==> running.None?
      ensures forall e :: r == Failure(BadFeeds(e)) <==>
                running.Some? && FeedsOf(running.value.intel) == Result.Failure(e)
      ensures r == Failure(NftFailed) <==>
                && running.Some? && FeedsOf(running.value.intel).Success?
                && FeedsOf(running.value.intel).value != [] && !accepted
      ensures r.Failure? || FeedsOf(running.value.intel).value == [] ==> sets == old(sets)
      ensures r.Success? && FeedsOf(running.value.intel).value != [] ==>
                sets == Sets(Texts(Merged(fetched), V4), Texts(Merged(fetched), V6))
      ensures r.Success? && FeedsOf(running.value.intel).value == [] ==>
                r.value == 0 && lastEntries == old(lastEntries)
      ensures r.Success? && FeedsOf(running.value.intel).value != [] ==>
                r.value == lastEntries == |Merged(fetched)|
      ensures var outcome := RefreshOutcome(running, fetched, accepted);
              sets == if outcome.Some? then outcome.value else old(sets)
    {
      if running.None? {
        return Failure(NoRunningPolicy);
      }
      var feeds := EnabledFeeds(running.value.intel);
      if feeds.Failure? {
        return Failure(BadFeeds(feeds.error));
      }
      if |feeds.value| == 0 {
        return Success(0);
      }
      var merged := Merge(fetched);
      var v4, v6 := Partition(merged);
      var script := SetScript(v4, v6);
      if !accepted {
        return Failure(NftFailed);
      }
      sets := RunScript(sets, script);
      lastEntries := |v4| + |v6|;
      return Success(|v4| + |v6|);
    }
  }

  /** Some feed that could be fetched has this prefix. */
  predicate Fetched(fetched: seq<Option<seq<Prefix>>>, p: Prefix) {
    exists k :: 0 <= k < |fetched| && fetched[k].Some? && p in fetched[k].value
  }

  lemma MergedAre(fetched: seq<Option<seq<Prefix>>>, p: Prefix)
    ensures p in Merged(fetched) <==> Fetched(fetched, p)
  {
    if Fetched(fetched, p) {
      var k :| 0 <= k < |fetched| && fetched[k].Some? && p in fetched[k].value;
      assert fetched[k] in fetched;
    }
  }

  /** Element texts stand for prefixes one to one, so the programmed sets hold exactly what was fetched. */
  lemma SetsHoldMerged(fetched: seq<Option<seq<Prefix>>>, p: Prefix)
    ensures PrefixText(p) in Texts(Merged(fetched), p.addr.family) <==> Fetched(fetched, p)
  {
    MergedAre(fetched, p);
    if p !in Merged(fetched) {
      TextIsNew(Merged(fetched), p);
    }
  }

  /**
    Exactly when a refresh that succeeds leaves the sets empty: every feed that was to be fetched
    failed or came back without a prefix.
   */
  lemma SetsEmptyIff(fetched: seq<Option<seq<Prefix>>>)
    ensures Sets(Texts(Merged(fetched), V4), Texts(Merged(fetched), V6)) == Sets({}, {})
            <==> forall o :: o in fetched ==> o.None? || o.value == []
    ensures |Merged(fetched)| == 0 <==> forall o :: o in fetched ==> o.None? || o.value == []
  {
    hide PrefixText;
    var ps := Merged(fetched);
    if p :| p in ps {
      assert PrefixText(p) in Texts(ps, p.addr.family);
    }
    if o :| o in fetched && o.Some? && o.value != [] {
      var q := o.value[0];
      assert q in o.value && q in ps;
    }
  }
}

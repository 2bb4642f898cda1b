/** Static routes: the ip-batch printer, and the engine that reconciles what it manages. */
module Routes {
  import opened Basics
  import opened IntermediateForm
  import opened Net
  import opened PolicyModel
  import opened Text
  import opened NetText

  // ---- the printer ----

  function Opt(c: bool, words: seq<string>): seq<string> {
    if c then words else []
  }

  function PartsOf(r: RouteIR): seq<string> {
    ["route", "replace", PrefixText(r.destination)]
    + (if r.via.Some? then ["via", AddrText(r.via.value)] else [])
    + Opt(r.dev != "", ["dev", r.dev])
    + Opt(r.metric != 0, ["metric", Dec(r.metric)])
  }

  function LineOf(r: RouteIR): string {
    Join(PartsOf(r), " ")
  }

  function LinesOf(rs: seq<RouteIR>): seq<string> {
    seq(|rs|, i requires 0 <= i < |rs| => LineOf(rs[i]))
  }

  function Artifact(rs: seq<RouteIR>): string {
    Unlines(LinesOf(rs))
  }

  method Line(r: RouteIR) returns (line: string)
    ensures line == LineOf(r)
  {
    var parts := ["route", "replace", PrefixText(r.destination)];
    if r.via.Some? {
      parts := parts + ["via", AddrText(r.via.value)];
    }
    if r.dev != "" {
      parts := parts + ["dev", r.dev];
    }
    if r.metric != 0 {
      parts := parts + ["metric", Dec(r.metric)];
    }
    assert parts == PartsOf(r);
    return Join(parts, " ");
  }

  method Render(rs: seq<RouteIR>) returns (text: string)
    ensures text == Artifact(rs)
  {
    text := "";
    for i := 0 to |rs|
      invariant text == Unlines(LinesOf(rs)[..i])
    {
      var line := Line(rs[i]);
      assert LinesOf(rs)[..i + 1] == LinesOf(rs)[..i] + [line];
      UnlinesSnoc(LinesOf(rs)[..i], line);
      text := text + line + "\n";
    }
    assert LinesOf(rs)[..|rs|] == LinesOf(rs);
  }

  // ---- reading a line ----

  /** The third word of a "route <verb> <destination> ..." line, or the empty string. */
  function Target(line: string, verb: string): string {
    var fields := Fields(line);
    if |fields| >= 3 && fields[0] == "route" && fields[1] == verb then fields[2] else ""
  }

  function RouteDest(line: string): string {
    Target(line, "replace")
  }

  function DestsOf(ls: seq<string>): seq<string> {
    if ls == [] then []
    else (if RouteDest(ls[0]) == "" then [] else [RouteDest(ls[0])]) + DestsOf(ls[1..])
  }

  /** The destinations of a config, line by line. */
  function Dests(config: string): seq<string> {
    DestsOf(Lines(config))
  }

  lemma DestIsWord(line: string, verb: string)
    ensures Target(line, verb) == "" || IsWord(Target(line, verb))
  {
    FieldsAreWords(line);
  }

  lemma {:induction false} DestsAreWords(ls: seq<string>)
    ensures forall d :: d in DestsOf(ls) ==> IsWord(d)
  {
    if ls != [] {
      DestIsWord(ls[0], "replace");
      DestsAreWords(ls[1..]);
    }
  }

  // ---- the engine ----

  const REPLACE := "route replace "

  const DELETE := "route del "

  lemma Verbs()
    ensures REPLACE == "route" + " " + "replace" + " " && DELETE == "route" + " " + "del" + " "
    ensures IsWord("route") && IsWord("replace") && IsWord("del")
  {
  }

  predicate IsReplace(line: string) {
    HasPrefix(line, REPLACE)
  }

  predicate Accepts(config: string) {
    forall l :: l in Lines(config) ==> IsReplace(l)
  }

  method Validate(config: string) returns (ok: bool)
    ensures ok <==> Accepts(config)
  {
    var ls := Lines(config);
    for i := 0 to |ls|
      invariant forall j :: 0 <= j < i ==> IsReplace(ls[j])
    {
      if !IsReplace(ls[i]) {
        return false;
      }
    }
    return true;
  }

  function DelLine(dest: string): string {
    DELETE + dest
  }

  function DelLines(dests: seq<string>): seq<string> {
    seq(|dests|, i requires 0 <= i < |dests| => DelLine(dests[i]))
  }

  /** The destination on a line of the state file, if it is no longer wanted. */
  function StaleLine(line: string, wanted: seq<string>): seq<string> {
    if RouteDest(line) == "" || RouteDest(line) in wanted then [] else [RouteDest(line)]
  }

  function Stale(ls: seq<string>, wanted: seq<string>): seq<string> {
    if ls == [] then [] else StaleLine(ls[0], wanted) + Stale(ls[1..], wanted)
  }

  function Batch(config: string, state: string): string {
    config + Unlines(DelLines(Stale(Lines(state), Dests(config))))
  }

  /** What one batch line does to the destinations that have a route. */
  function RunLine(table: set<string>, line: string): set<string> {
    if RouteDest(line) != "" then table + {RouteDest(line)}
    else if Target(line, "del") != "" then table - {Target(line, "del")}
    else table
  }

  function RunLines(table: set<string>, ls: seq<string>): set<string>
    decreases |ls|
  {
    if ls == [] then table else RunLines(RunLine(table, ls[0]), ls[1..])
  }

  function RunBatch(table: set<string>, batch: string): set<string> {
    RunLines(table, Lines(batch))
  }

  lemma DestsFrom(ls: seq<string>, i: nat)
    requires i < |ls|
    ensures DestsOf(ls[i..]) == (if RouteDest(ls[i]) == "" then [] else [RouteDest(ls[i])]) + DestsOf(ls[i + 1..])
  {
    assert ls[i..][1..] == ls[i + 1..];
  }

  method Wanted(dest: string, config: string) returns (still: bool)
    requires dest != ""
    ensures still <==> dest in Dests(config)
  {
    var ls := Lines(config);
    assert ls[0..] == ls;
    for i := 0 to |ls|
      invariant dest in DestsOf(ls) <==> dest in DestsOf(ls[i..])
    {
      DestsFrom(ls, i);
      if RouteDest(ls[i]) == dest {
        return true;
      }
    }
    return false;
  }

  lemma AppendDels(config: string, dels: seq<string>, more: seq<string>)
    ensures config + Unlines(DelLines(dels)) + Unlines(DelLines(more)) == config + Unlines(DelLines(dels + more))
  {
    assert DelLines(dels + more) == DelLines(dels) + DelLines(more);
    UnlinesConcat(DelLines(dels), DelLines(more));
  }

  lemma StaleFrom(ls: seq<string>, wanted: seq<string>, i: nat)
    requires i < |ls|
    ensures Stale(ls[i..], wanted) == StaleLine(ls[i], wanted) + Stale(ls[i + 1..], wanted)
  {
    assert ls[i..][1..] == ls[i + 1..];
  }

  /** The delete statement for one line of the state file, if it needs one. */
  method DelStatement(line: string, config: string) returns (text: string)
    ensures text == Unlines(DelLines(StaleLine(line, Dests(config))))
  {
    var dest := RouteDest(line);
    if dest == "" {
      return "";
    }
    var still := Wanted(dest, config);
    if still {
      return "";
    }
    UnlinesOne(DelLine(dest));
    assert DelLines([dest]) == [DelLine(dest)];
    return DELETE + dest + "\n";
  }

  /** The state file as an apply sees it: empty if it cannot be read. */
  function Seen(state: string, readable: bool): string {
    if readable then state else ""
  }

  lemma NothingSeen()
    ensures Lines("") == []
  {
    BlankLines("");
  }

  /** The engine with the two things it changes: its state file and the routing table. */
  class Engine {
    var state: string
    var table: set<string>

    constructor (state: string, table: set<string>)
      ensures this.state == state && this.table == table
    {
      this.state, this.table := state, table;
    }

    method Script(config: string, readable: bool) returns (batch: string)
      ensures batch == Batch(config, if readable then state else "")
    {
      batch := config;
      var ls := if readable then Lines(state) else [];
      NothingSeen();
      ghost var wanted, dels: seq<string> := Dests(config), [];
      ghost var all := Stale(ls, wanted);
      assert ls[0..] == ls && config + "" == config && [] + all == all;
      for i := 0 to |ls|
        invariant batch == config + Unlines(DelLines(dels))
        invariant dels + Stale(ls[i..], wanted) == all
      {
        StaleFrom(ls, wanted, i);
        ghost var more := StaleLine(ls[i], wanted);
        MoveBrackets(dels, more, Stale(ls[i + 1..], wanted), all);
        var text := DelStatement(ls[i], config);
        AppendDels(config, dels, more);
        batch := batch + text;
        dels := dels + more;
      }
      assert ls[|ls|..] == [] && dels + [] == dels;
    }

    /**
      Apply a config. `makesDir` says whether there is a state directory, `readable` whether the state
      file can be read, `breaksAt` at which line the ip command breaks off the batch, if it has so many,
      and `saved` how the state file takes its new contents.
     */
    method Apply(config: string, makesDir: bool, readable: bool, breaksAt: Option<nat>, saved: Write) returns (ok: bool)
      modifies this
      ensures var ls := Lines(Batch(config, if readable then old(state) else ""));
              var runs := makesDir && !(breaksAt.Some? && breaksAt.value < |ls|);
              && (ok <==> runs && saved.Stored?)
              && state == (if runs then Written(config, saved) else old(state))
              && table == (if runs then RunLines(old(table), ls)
                           else if makesDir then RunLines(old(table), ls[..breaksAt.value])
                           else old(table))
    {
      if !makesDir {
        return false;
      }
      var batch := Script(config, readable);
      if Trim(batch) != "" {
        var ls := Lines(batch);
        if breaksAt.Some? && breaksAt.value < |ls| {
          table := RunLines(table, ls[..breaksAt.value]);
          return false;
        }
        table := RunLines(table, ls);
      } else {
        BlankLines(batch);
      }
      state := Written(config, saved);
      return saved.Stored?;
    }
  }

  // ---- what one batch does ----

  lemma {:induction false} RunConcat(table: set<string>, a: seq<string>, b: seq<string>)
    ensures RunLines(table, a + b) == RunLines(RunLines(table, a), b)
    decreases |a|
  {
    if a == [] {
      assert a + b == b;
    } else {
      assert (a + b)[1..] == a[1..] + b;
      RunConcat(RunLine(table, a[0]), a[1..], b);
    }
  }

  /** An accepted line has a destination. */
  lemma AcceptedLine(l: string)
    requires Tidy(l) && IsReplace(l)
    ensures RouteDest(l) != ""
  {
    Verbs();
    var n := |REPLACE|;
    var rest := l[n..];
    assert l == REPLACE + rest;
    assert REPLACE[n - 1] == ' ';
    if rest == "" {
      assert false;
    }
    FieldsAfterTwo("route", "replace", rest);
    var fields := Fields(l);
    assert fields[0] == fields[..2][0] && fields[1] == fields[..2][1];
  }

  lemma {:induction false} ReplaceRuns(table: set<string>, ls: seq<string>)
    requires forall l :: l in ls ==> RouteDest(l) != ""
    ensures RunLines(table, ls) == table + Elems(DestsOf(ls))
    decreases |ls|
  {
    if ls != [] {
      assert ls[0] in ls && forall l :: l in ls[1..] ==> l in ls;
      ReplaceRuns(RunLine(table, ls[0]), ls[1..]);
    }
  }

  lemma DelLineTarget(d: string)
    requires IsWord(d)
    ensures Tidy(DelLine(d)) && DelLine(d) != "" && RouteDest(DelLine(d)) == "" && Target(DelLine(d), "del") == d
  {
    Verbs();
    assert DelLine(d) == "route" + " " + "del" + " " + d + "";
    FieldsOfThree("route", "del", d, "");
    ThreeFields(Fields(DelLine(d)), "route", "del", d);
    assert DelLine(d)[0] == 'r' && DelLine(d)[|DelLine(d)| - 1] == d[|d| - 1];
    assert '\n' !in DELETE && forall c :: c in d ==> !IsSpace(c);
  }

  lemma ThreeFields(fields: seq<string>, a: string, b: string, c: string)
    requires |fields| >= 3 && fields[..3] == [a, b, c]
    ensures fields[0] == a && fields[1] == b && fields[2] == c
  {
    assert fields[0] == fields[..3][0] && fields[1] == fields[..3][1] && fields[2] == fields[..3][2];
  }

  lemma {:induction false} DelRuns(table: set<string>, ds: seq<string>)
    requires forall d :: d in ds ==> IsWord(d)
    ensures RunLines(table, DelLines(ds)) == table - Elems(ds)
    decreases |ds|
  {
    if ds != [] {
      assert ds[0] in ds && forall d :: d in ds[1..] ==> d in ds;
      DelLineTarget(ds[0]);
      assert DelLines(ds)[1..] == DelLines(ds[1..]);
      DelRuns(RunLine(table, DelLines(ds)[0]), ds[1..]);
    }
  }

  lemma {:induction false} StaleIs(ls: seq<string>, wanted: seq<string>)
    ensures forall d :: d in Stale(ls, wanted) <==> d in DestsOf(ls) && d !in wanted
  {
    if ls != [] {
      StaleIs(ls[1..], wanted);
    }
  }

  lemma DelText(ds: seq<string>)
    requires forall d :: d in ds ==> IsWord(d)
    ensures Lines(Unlines(DelLines(ds))) == DelLines(ds)
  {
    forall l | l in DelLines(ds)
      ensures Tidy(l) && l != ""
    {
      var i :| 0 <= i < |ds| && DelLines(ds)[i] == l;
      DelLineTarget(ds[i]);
    }
    LinesOfTidy(DelLines(ds));
  }

  ghost function DestSet(config: string): set<string> {
    Elems(Dests(config))
  }

  /** A batch is the config's lines and then the deletions, of destinations that are managed and no longer wanted. */
  lemma BatchLines(config: string, state: string) returns (dels: seq<string>)
    requires Accepts(config) && Terminated(config)
    ensures Lines(Batch(config, state)) == Lines(config) + DelLines(dels)
    ensures (forall d :: d in dels ==> IsWord(d)) && Elems(dels) == DestSet(state) - DestSet(config)
    ensures forall l :: l in Lines(config) ==> RouteDest(l) != ""
  {
    dels := Stale(Lines(state), Dests(config));
    StaleIs(Lines(state), Dests(config));
    DestsAreWords(Lines(state));
    LinesConcat(config, Unlines(DelLines(dels)));
    DelText(dels);
    LinesTidy(config);
    forall l | l in Lines(config)
      ensures RouteDest(l) != ""
    {
      AcceptedLine(l);
    }
  }

  /**
    One successful apply: every wanted destination has a route, every managed destination that
    is no longer wanted has none, and no other destination is touched.
   */
  lemma BatchReconciles(table: set<string>, config: string, state: string)
    requires Accepts(config) && Terminated(config)
    ensures RunBatch(table, Batch(config, state)) == table - DestSet(state) + DestSet(config)
  {
    var dels := BatchLines(config, state);
    RunConcat(table, Lines(config), DelLines(dels));
    ReplaceRuns(table, Lines(config));
    DelRuns(table + DestSet(config), dels);
  }

  // ---- runs ----

  /** The table after applying the configs one after the other. */
  function TableAfter(table: set<string>, state: string, configs: seq<string>): set<string>
    decreases |configs|
  {
    if configs == [] then table
    else TableAfter(RunBatch(table, Batch(configs[0], state)), configs[0], configs[1..])
  }

  ghost function EverManaged(state: string, configs: seq<string>): set<string>
    decreases |configs|
  {
    if configs == [] then DestSet(state) else DestSet(state) + EverManaged(configs[0], configs[1..])
  }

  /**
    Over any run of successful applies the table ends with exactly the last config's destinations
    plus those routes that were there at the start and that no applied config ever named.
   */
  lemma {:induction false} RunReconciles(table: set<string>, state: string, configs: seq<string>)
    requires configs != [] && forall c :: c in configs ==> Accepts(c) && Terminated(c)
    ensures TableAfter(table, state, configs)
         == table - EverManaged(state, configs) + DestSet(configs[|configs| - 1])
    decreases |configs|
  {
    hide RunBatch, Batch, DestSet, Accepts, Terminated;
    assert configs[0] in configs && forall c :: c in configs[1..] ==> c in configs;
    BatchReconciles(table, configs[0], state);
    if |configs| == 1 {
      assert configs[1..] == [];
    } else {
      var next := RunBatch(table, Batch(configs[0], state));
      RunReconciles(next, configs[0], configs[1..]);
      FirstManaged(configs[0], configs[1..]);
      Absorb(table, next, DestSet(state), DestSet(configs[0]), EverManaged(configs[0], configs[1..]));
    }
  }

  lemma Absorb(table: set<string>, next: set<string>, was: set<string>, now: set<string>, later: set<string>)
    requires next == table - was + now && now <= later
    ensures next - later == table - (was + later)
  {
  }

  lemma FirstManaged(state: string, configs: seq<string>)
    ensures DestSet(state) <= EverManaged(state, configs)
  {
  }

  // ---- runs with failures ----

  /**
    An apply that succeeded, one that the ip command broke off, and one that failed only to write the
    state file; `read` says whether it could read that file.
   */
  datatype Step =
    | Succeeded(config: string, read: bool)
    | Broken(config: string, read: bool, at: nat)
    | Unsaved(config: string, read: bool, left: string)

  /** The lines of the batch that were run. */
  function LinesRun(state: string, s: Step): seq<string> {
    var ls := Lines(Batch(s.config, Seen(state, s.read)));
    if s.Broken? && s.at < |ls| then ls[..s.at] else ls
  }

  function StateStep(state: string, s: Step): string {
    match s
    case Succeeded(config, _) => config
    case Broken(_, _, _) => state
    case Unsaved(_, _, left) => left
  }

  function TableRun(table: set<string>, state: string, steps: seq<Step>): set<string>
    decreases |steps|
  {
    if steps == [] then table
    else TableRun(RunLines(table, LinesRun(state, steps[0])), StateStep(state, steps[0]), steps[1..])
  }

  /** Every destination that was in the state file at some time. */
  ghost function Recorded(state: string, steps: seq<Step>): set<string>
    decreases |steps|
  {
    DestSet(state) + (if steps == [] then {} else Recorded(StateStep(state, steps[0]), steps[1..]))
  }

  /**
    What an apply may leave without the state file naming it: its own destinations if it failed, the old
    ones unread.
   */
  ghost function StraysOf(state: string, s: Step): set<string> {
    (if s.Succeeded? then {} else DestSet(s.config)) + (if s.read then {} else DestSet(state))
  }

  ghost function Strays(state: string, steps: seq<Step>): set<string>
    decreases |steps|
  {
    if steps == [] then {} else StraysOf(state, steps[0]) + Strays(StateStep(state, steps[0]), steps[1..])
  }

  ghost predicate AllAccepted(steps: seq<Step>) {
    forall s :: s in steps ==> Accepts(s.config) && Terminated(s.config)
  }

  lemma {:induction false} DestsOfFront(ls: seq<string>, k: nat)
    requires k <= |ls|
    ensures forall d :: d in DestsOf(ls[..k]) ==> d in DestsOf(ls)
    decreases |ls|
  {
    if k > 0 {
      DestsOfFront(ls[1..], k - 1);
      assert ls[..k][0] == ls[0] && ls[..k][1..] == ls[1..][..k - 1];
    }
  }

  /** However far a batch gets, it adds destinations of the config only, and removes managed ones only. */
  lemma PartBounds(table: set<string>, config: string, state: string, k: nat)
    requires Accepts(config) && Terminated(config) && k <= |Lines(Batch(config, state))|
    ensures table - DestSet(state) <= RunLines(table, Lines(Batch(config, state))[..k]) <= table + DestSet(config)
  {
    var dels := BatchLines(config, state);
    var ls := Lines(config);
    hide Lines, RouteDest, Accepts, Batch;
    if k <= |ls| {
      assert (ls + DelLines(dels))[..k] == ls[..k];
      DestsOfFront(ls, k);
      ReplaceRuns(table, ls[..k]);
    } else {
      var some := dels[..k - |ls|];
      assert (ls + DelLines(dels))[..k] == ls + DelLines(some);
      assert forall d :: d in some ==> d in dels;
      RunConcat(table, ls, DelLines(some));
      ReplaceRuns(table, ls);
      DelRuns(table + DestSet(config), some);
      assert Elems(some) <= Elems(dels) <= DestSet(state);
      assert RunLines(table, ls + DelLines(some)) == table + DestSet(config) - Elems(some);
    }
  }

  /** What one apply does to the table, whichever way it ends. */
  lemma StepBounds(table: set<string>, state: string, s: Step)
    requires Accepts(s.config) && Terminated(s.config)
    ensures table - DestSet(state) <= RunLines(table, LinesRun(state, s)) <= table + DestSet(s.config)
    ensures !s.Broken? && s.read ==> RunLines(table, LinesRun(state, s)) == table - DestSet(state) + DestSet(s.config)
    ensures !s.Broken? && !s.read ==> RunLines(table, LinesRun(state, s)) == table + DestSet(s.config)
  {
    var seen := Seen(state, s.read);
    var ls := Lines(Batch(s.config, seen));
    assert ls[..|ls|] == ls;
    NothingSeen();
    assert DestSet(seen) == if s.read then DestSet(state) else {};
    PartBounds(table, s.config, seen, |LinesRun(state, s)|);
    BatchReconciles(table, s.config, seen);
    hide Lines, Batch, RunLines, DestSet, Accepts, Terminated;
  }

  /**
    Over any run of applies, failed ones included, that ends with a successful one: a destination that
    no state file named and no apply left astray is not touched; the last config's have routes; and of
    the others only those have one that had it at the start and were never recorded, or that some apply
    left astray: added by one that failed, or not deleted because the state file could not be read.
   */
  lemma {:induction false} FailuresReconcile(table: set<string>, state: string, steps: seq<Step>)
    requires AllAccepted(steps) && steps != [] && steps[|steps| - 1].Succeeded?
    ensures var after, last := TableRun(table, state, steps), DestSet(steps[|steps| - 1].config);
            && (forall x :: x !in Recorded(state, steps) + Strays(state, steps) ==> (x in after <==> x in table))
            && last <= after <= last + Strays(state, steps) + (table - Recorded(state, steps))
    decreases |steps|
  {
    hide LinesRun, RunLines, DestSet, Accepts, Terminated;
    var s, rest := steps[0], steps[1..];
    assert s in steps && forall x :: x in rest ==> x in steps;
    StepBounds(table, state, s);
    RecordedFirst(StateStep(state, s), rest);
    if rest != [] {
      FailuresReconcile(RunLines(table, LinesRun(state, s)), StateStep(state, s), rest);
    }
  }

  lemma RecordedFirst(state: string, steps: seq<Step>)
    ensures DestSet(state) <= Recorded(state, steps)
  {
  }

  // ---- rendered routes ----

  /** A newline in the device text is harmless: nothing but white space comes after it on the printed route. */
  predicate DevFits(r: RouteIR) {
    '\n' in r.dev ==> r.metric == 0 && Blank(Cut(r.dev, '\n').1)
  }

  predicate DevsFit(rs: seq<RouteIR>) {
    forall r :: r in rs ==> DevFits(r)
  }

  function Options(r: RouteIR): seq<string> {
    PartsOf(r)[3..]
  }

  lemma LineShape(r: RouteIR)
    ensures LineOf(r) == REPLACE + PrefixText(r.destination) + JoinTail(Options(r))
  {
    Verbs();
    var dest := PrefixText(r.destination);
    assert PartsOf(r) == ["route", "replace", dest] + Options(r);
    JoinThree("route", "replace", dest, Options(r));
  }

  /** What is printed after the device text. */
  function Tail(r: RouteIR): string {
    if r.metric != 0 then " metric " + Dec(r.metric) else ""
  }

  /** What is printed before it, when there is one. */
  function Front(r: RouteIR): string {
    REPLACE + PrefixText(r.destination) + ViaText(r) + " dev "
  }

  function Via(r: RouteIR): seq<string> {
    if r.via.Some? then ["via", AddrText(r.via.value)] else []
  }

  function ViaText(r: RouteIR): string {
    if r.via.Some? then " via " + AddrText(r.via.value) else ""
  }

  lemma TailText(r: RouteIR)
    ensures JoinTail(Opt(r.metric != 0, ["metric", Dec(r.metric)])) == Tail(r)
  {
    hide Dec;
    TwoWords("metric", Dec(r.metric), []);
    assert ["metric", Dec(r.metric)] + [] == ["metric", Dec(r.metric)];
  }

  lemma ViaJoin(r: RouteIR, rest: seq<string>)
    ensures JoinTail(Via(r) + rest) == ViaText(r) + JoinTail(rest)
  {
    hide AddrText;
    if r.via.Some? {
      TwoWords("via", AddrText(r.via.value), rest);
    } else {
      assert Via(r) + rest == rest && "" + JoinTail(rest) == JoinTail(rest);
    }
  }

  lemma DevLine(r: RouteIR)
    requires r.dev != ""
    ensures LineOf(r) == Front(r) + r.dev + Tail(r)
  {
    LineShape(r);
    TailText(r);
    var tail := Opt(r.metric != 0, ["metric", Dec(r.metric)]);
    var rest := ["dev", r.dev] + tail;
    assert Options(r) == Via(r) + rest;
    TwoWords("dev", r.dev, tail);
    ViaJoin(r, rest);
    hide *;
    var head := REPLACE + PrefixText(r.destination);
    Brackets(head, ViaText(r), r.dev, Tail(r));
    FrontIs(r);
  }

  lemma FrontIs(r: RouteIR)
    ensures Front(r) == REPLACE + PrefixText(r.destination) + ViaText(r) + " dev "
  {
  }

  lemma Brackets(a: string, v: string, d: string, t: string)
    ensures a + (v + (" " + "dev" + " " + d + t)) == a + v + " dev " + d + t
  {
  }

  lemma TwoWords(a: string, b: string, ws: seq<string>)
    ensures JoinTail([a, b] + ws) == " " + a + " " + b + JoinTail(ws)
  {
    assert [a, b] + ws == [a] + ([b] + ws);
    HeadJoin(a, [b] + ws);
    if ws != [] {
      HeadJoin(b, ws);
    } else {
      assert [b] + ws == [b];
    }
  }

  lemma FrontNoNewline(r: RouteIR)
    ensures '\n' !in Front(r) && '\n' !in Tail(r) && (r.metric != 0 ==> !Blank(Tail(r)))
  {
    PrefixTextWord(r.destination);
    if r.via.Some? {
      AddrTextWord(r.via.value);
    }
    DecDigits(r.metric);
    assert '\n' !in REPLACE;
    if r.metric != 0 {
      assert Tail(r)[1] == 'm' && Tail(r)[1] in Tail(r);
    }
  }

  /** What a replace line with a destination reads back as, once trimmed. */
  lemma ReplaceReadsBack(dest: string, rest: string)
    requires IsWord(dest) && (rest == "" || IsSpace(rest[0]))
    ensures Trim(REPLACE + dest + rest) != "" && IsReplace(Trim(REPLACE + dest + rest))
    ensures RouteDest(Trim(REPLACE + dest + rest)) == dest
  {
    Verbs();
    var front, cut := REPLACE + dest, TrimRight(rest);
    assert front[0] == 'r' && front[|front| - 1] == dest[|dest| - 1];
    TrimKeeps(front, rest);
    TrimRightFacts(rest);
    FieldsOfThree("route", "replace", dest, cut);
    ThreeFields(Fields(front + cut), "route", "replace", dest);
    assert (front + cut)[..|REPLACE|] == REPLACE;
  }

  lemma NoDevNoNewline(r: RouteIR)
    requires r.dev == ""
    ensures '\n' !in JoinTail(Options(r))
  {
    if r.via.Some? {
      AddrTextWord(r.via.value);
    }
    DecDigits(r.metric);
    JoinNoNewline(Options(r));
  }

  /** The first piece of a printed route: the route as far as the first newline. */
  lemma FirstPiece(r: RouteIR) returns (rest: string)
    ensures rest == "" || IsSpace(rest[0])
    ensures Split(LineOf(r), '\n')[0] == REPLACE + PrefixText(r.destination) + rest
  {
    LineShape(r);
    PrefixTextWord(r.destination);
    var front, tail := REPLACE + PrefixText(r.destination), JoinTail(Options(r));
    assert '\n' !in REPLACE;
    SplitFront(front, tail);
    rest := Split(tail, '\n')[0];
    ContinuationIsCut(tail);
    CutFacts(tail, '\n');
    if rest != "" {
      assert tail[0] == rest[0];
    }
  }

  lemma BlankConcat(a: string, b: string)
    ensures Blank(a + b) <==> Blank(a) && Blank(b)
  {
    assert forall c :: c in a + b <==> c in a || c in b;
  }

  /** What follows the first newline, when the device text holds one. */
  lemma CutRoute(front: string, dev: string, tail: string)
    requires '\n' !in front && '\n' in dev
    ensures Cut(front + dev + tail, '\n').1 == Cut(dev, '\n').1 + tail && '\n' in front + dev + tail
  {
    CutFacts(dev, '\n');
    var c := Cut(dev, '\n');
    assert front + dev + tail == (front + c.0) + ['\n'] + (c.1 + tail);
    CutAt(front + c.0, c.1 + tail, '\n');
  }

  lemma NoNewlineIn(r: RouteIR)
    requires '\n' !in r.dev
    ensures '\n' !in LineOf(r)
  {
    if r.dev == "" {
      LineShape(r);
      NoDevNoNewline(r);
      PrefixTextWord(r.destination);
      assert '\n' !in REPLACE;
    } else {
      DevLine(r);
      FrontNoNewline(r);
    }
    hide *;
  }

  /** A printed route goes on past its first line exactly if its device text does not fit. */
  lemma RestOfRoute(r: RouteIR)
    ensures NonBlank(Continuation(LineOf(r))) == [] <==> DevFits(r)
  {
    ContinuationIsCut(LineOf(r));
    if '\n' in r.dev {
      DevLine(r);
      FrontNoNewline(r);
      CutRoute(Front(r), r.dev, Tail(r));
      var after := Cut(r.dev, '\n').1;
      NonBlankNone(Split(after + Tail(r), '\n'));
      BlankPiecesIff(after + Tail(r));
      BlankConcat(after, Tail(r));
      assert r.metric == 0 ==> Tail(r) == "" && Blank("");
      hide Cut, Split, NonBlank, LineOf, Tail, Blank;
    } else {
      NoNewlineIn(r);
      hide LineOf;
    }
  }

  /** The lines the engine reads for one printed route: its own, then whatever the device text smuggles in. */
  lemma RouteBlock(r: RouteIR) returns (line: string)
    ensures NonBlank(Split(LineOf(r), '\n')) == [line] + NonBlank(Continuation(LineOf(r)))
    ensures IsReplace(line) && RouteDest(line) == PrefixText(r.destination) && RouteDest(line) != ""
  {
    var rest := FirstPiece(r);
    PrefixTextWord(r.destination);
    ReplaceReadsBack(PrefixText(r.destination), rest);
    var pieces := Split(LineOf(r), '\n');
    line := Trim(pieces[0]);
  }

  function RouteDests(rs: seq<RouteIR>): seq<string> {
    seq(|rs|, i requires 0 <= i < |rs| => PrefixText(rs[i].destination))
  }

  /** What the engine should read: accepted lines, one per route, with the routes' destinations in order. */
  predicate AsMeant(ls: seq<string>, rs: seq<RouteIR>) {
    (forall l :: l in ls ==> IsReplace(l)) && |ls| == |rs| && DestsOf(ls) == RouteDests(rs)
  }

  lemma AddRoute(line: string, ls: seq<string>, r: RouteIR, rs: seq<RouteIR>)
    requires IsReplace(line) && RouteDest(line) == PrefixText(r.destination) != ""
    requires AsMeant(ls, rs)
    ensures AsMeant([line] + ls, [r] + rs)
  {
    assert ([line] + ls)[1..] == ls;
    assert RouteDests([r] + rs) == [PrefixText(r.destination)] + RouteDests(rs);
  }

  /** At least one line for every route; just one exactly if the devices fit; and then they are as meant. */
  predicate Counted(ls: seq<string>, rs: seq<RouteIR>) {
    |ls| >= |rs| && (|ls| == |rs| <==> DevsFit(rs)) && (DevsFit(rs) ==> AsMeant(ls, rs))
  }

  lemma CountOne(line: string, extra: seq<string>, more: seq<string>, r: RouteIR, rs: seq<RouteIR>)
    requires IsReplace(line) && RouteDest(line) == PrefixText(r.destination) != ""
    requires (extra == [] <==> DevFits(r)) && Counted(more, rs)
    ensures Counted([line] + extra + more, [r] + rs)
  {
    hide DevFits, IsReplace, RouteDest, PrefixText, AsMeant;
    assert DevsFit([r] + rs) <==> DevFits(r) && DevsFit(rs) by {
      assert r in [r] + rs && forall x :: x in [r] + rs <==> x == r || x in rs;
    }
    if DevsFit([r] + rs) {
      AddRoute(line, more, r, rs);
      assert [line] + [] + more == [line] + more;
    }
  }

  lemma {:induction false} LinesCount(rs: seq<RouteIR>)
    ensures Counted(NonBlank(Pieces(LinesOf(rs))), rs)
  {
    hide LineOf, Split, IsReplace, RouteDest, DevFits, PrefixText, Continuation;
    if rs != [] {
      var r, rest := rs[0], rs[1..];
      var line := RouteBlock(r);
      RestOfRoute(r);
      LinesCount(rest);
      assert LinesOf(rs)[0] == LineOf(r) && LinesOf(rs)[1..] == LinesOf(rest);
      NonBlankConcat(Split(LineOf(r), '\n'), Pieces(LinesOf(rest)));
      CountOne(line, NonBlank(Continuation(LineOf(r))), NonBlank(Pieces(LinesOf(rest))), r, rest);
      assert rs == [r] + rest;
    }
  }

  /**
    The engine reads a rendered artifact back as it was meant - accepted, one line per route, the
    routes' own destinations in order - if and only if no device text carries on past a newline.
   */
  lemma RenderedReadsBackIff(rs: seq<RouteIR>)
    ensures Terminated(Artifact(rs))
    ensures AsMeant(Lines(Artifact(rs)), rs) <==> DevsFit(rs)
  {
    LinesCount(rs);
    LinesOfPieces(LinesOf(rs));
    UnlinesTerminated(LinesOf(rs));
  }

  // ---- what a printed line says ----

  /** The line gives these arguments in this order; m is the text of the metric. */
  predicate IsRouteLine(line: string, dest: string, via: Option<Addr>, dev: string, metric: uint32, m: string) {
    && IsNumeral(m) && NumberOf(m) == metric
    && line == "route replace " + dest + (if via.Some? then " via " + AddrText(via.value) else "")
               + (if dev != "" then " dev " + dev else "") + (if metric != 0 then " metric " + m else "")
  }

  /** The argument after a keyword, in the pairs that follow the destination. */
  function Arg(pairs: seq<string>, key: string): Option<string> {
    if |pairs| < 2 then None else if pairs[0] == key then Some(pairs[1]) else Arg(pairs[2..], key)
  }

  /** The words give the destination, and each of the three arguments exactly if there is one. */
  predicate WordsSay(ws: seq<string>, dest: string, via: Option<Addr>, dev: string, metric: uint32) {
    && |ws| == 3 + (if via.Some? then 2 else 0) + (if dev != "" then 2 else 0) + (if metric != 0 then 2 else 0)
    && ws[..3] == ["route", "replace", dest]
    && Arg(ws[3..], "via") == (if via.Some? then Some(AddrText(via.value)) else None)
    && Arg(ws[3..], "dev") == (if dev != "" then Some(dev) else None)
    && (metric == 0 ==> Arg(ws[3..], "metric") == None)
    && (metric != 0 ==> var m := Arg(ws[3..], "metric");
                        m.Some? && IsNumeral(m.value) && NumberOf(m.value) == metric)
  }

  /** Whatever the device text, the printed line is the destination, the next hop, the device and the metric. */
  lemma LineIs(r: RouteIR)
    ensures exists m :: IsRouteLine(LineOf(r), PrefixText(r.destination), r.via, r.dev, r.metric, m)
  {
    LineTextIs(r);
    DecReads(r.metric);
    hide LineOf, PrefixText, AddrText, Dec, IsNumeral, NumberOf;
    assert IsRouteLine(LineOf(r), PrefixText(r.destination), r.via, r.dev, r.metric, Dec(r.metric));
  }

  lemma LineTextIs(r: RouteIR)
    ensures LineOf(r) == REPLACE + PrefixText(r.destination) + ViaText(r) + DevText(r) + Tail(r)
  {
    LineShape(r);
    TailText(r);
    var metric := Opt(r.metric != 0, ["metric", Dec(r.metric)]);
    var dev := Opt(r.dev != "", ["dev", r.dev]) + metric;
    assert Options(r) == Via(r) + dev;
    ViaJoin(r, dev);
    DevJoin(r, metric);
    hide *;
    MoveBrackets(ViaText(r), DevText(r), Tail(r), ViaText(r) + (DevText(r) + Tail(r)));
    var head := REPLACE + PrefixText(r.destination);
    MoveBrackets(head, ViaText(r) + DevText(r), Tail(r), head + ((ViaText(r) + DevText(r)) + Tail(r)));
    MoveBrackets(head, ViaText(r), DevText(r), head + (ViaText(r) + DevText(r)));
  }

  function DevText(r: RouteIR): string {
    if r.dev != "" then " dev " + r.dev else ""
  }

  lemma DevJoin(r: RouteIR, tail: seq<string>)
    ensures JoinTail(Opt(r.dev != "", ["dev", r.dev]) + tail) == DevText(r) + JoinTail(tail)
  {
    if r.dev != "" {
      TwoWords("dev", r.dev, tail);
    } else {
      assert [] + tail == tail && "" + JoinTail(tail) == JoinTail(tail);
    }
  }

  lemma ArgFirst(key: string, v: string, more: seq<string>, other: string)
    ensures Arg([key, v] + more, other) == if other == key then Some(v) else Arg(more, other)
  {
    assert ([key, v] + more)[2..] == more;
  }

  function MetricPair(r: RouteIR): seq<string> {
    Opt(r.metric != 0, ["metric", Dec(r.metric)])
  }

  function DevPair(r: RouteIR): seq<string> {
    Opt(r.dev != "", ["dev", r.dev])
  }

  lemma ArgOpt(c: bool, key: string, v: string, more: seq<string>, other: string)
    ensures Arg(Opt(c, [key, v]) + more, other) == if c && other == key then Some(v) else Arg(more, other)
  {
    if c {
      ArgFirst(key, v, more, other);
    } else {
      assert [] + more == more;
    }
  }

  lemma ArgOfOptions(r: RouteIR, key: string)
    ensures Arg(Options(r), key)
            == if key == "via" && r.via.Some? then Some(AddrText(r.via.value))
               else if key == "dev" && r.dev != "" then Some(r.dev)
               else if key == "metric" && r.metric != 0 then Some(Dec(r.metric))
               else None
  {
    hide Dec, PrefixText, AddrText;
    var more := DevPair(r) + MetricPair(r);
    assert Options(r) == Via(r) + more;
    assert MetricPair(r) == MetricPair(r) + [] && Arg([], key) == None;
    if r.via.Some? {
      ArgOpt(true, "via", AddrText(r.via.value), more, key);
    } else {
      assert Via(r) + more == more;
    }
    ArgOpt(r.dev != "", "dev", r.dev, MetricPair(r), key);
    ArgOpt(r.metric != 0, "metric", Dec(r.metric), [], key);
    hide Arg, Opt;
  }

  /** With a device that is a word, or none, the words of the line say the same. */
  lemma LineSays(r: RouteIR)
    requires r.dev == "" || IsWord(r.dev)
    ensures WordsSay(Fields(LineOf(r)), PrefixText(r.destination), r.via, r.dev, r.metric)
  {
    PartsAreWords(r);
    FieldsOfJoin(PartsOf(r));
    DecReads(r.metric);
    ArgOfOptions(r, "via");
    ArgOfOptions(r, "dev");
    ArgOfOptions(r, "metric");
    hide Dec, PrefixText, AddrText, IsNumeral, NumberOf, Fields, Arg;
  }

  lemma Keywords()
    ensures IsWord("route") && IsWord("replace") && IsWord("via") && IsWord("dev") && IsWord("metric")
  {
  }

  lemma PartsAreWords(r: RouteIR)
    requires r.dev == "" || IsWord(r.dev)
    ensures forall w :: w in PartsOf(r) ==> IsWord(w)
  {
    PrefixTextWord(r.destination);
    if r.via.Some? {
      AddrTextWord(r.via.value);
    }
    DecDigits(r.metric);
    assert IsWord(Dec(r.metric));
    Keywords();
    hide Dec, PrefixText, AddrText, IsWord;
  }

  /** An artifact whose devices are words has one line for each route, and these are its lines. */
  lemma ArtifactSays(rs: seq<RouteIR>)
    requires forall r :: r in rs ==> r.dev == "" || IsWord(r.dev)
    ensures Lines(Artifact(rs)) == LinesOf(rs)
  {
    var ls := LinesOf(rs);
    forall l | l in ls
      ensures Tidy(l) && l != ""
    {
      var i :| 0 <= i < |rs| && LineOf(rs[i]) == l;
      PartsAreWords(rs[i]);
      JoinTidy(PartsOf(rs[i]));
    }
    LinesOfTidy(ls);
  }

  // ---- a route that no policy entry names ----

  /** A device text with a second route in it. */
  function SmugglingDev(dest: string): string {
    "e" + ['\n'] + (REPLACE + dest)
  }

  lemma SmuggledLine(r: RouteIR, dest: string)
    requires r.metric == 0 && r.dev == SmugglingDev(dest) && IsWord(dest)
    ensures NonBlank(Continuation(LineOf(r))) == [Trim(REPLACE + dest)]
  {
    var more := REPLACE + dest;
    assert '\n' !in "e" && '\n' !in REPLACE && '\n' !in more && '\n' in r.dev;
    ReplaceReadsBack(dest, "");
    assert REPLACE + dest + "" == more;
    DevLine(r);
    FrontNoNewline(r);
    CutRoute(Front(r), r.dev, Tail(r));
    CutAt("e", more, '\n');
    assert Cut(LineOf(r), '\n').1 == more;
    ContinuationIsCut(LineOf(r));
    SplitNone(more, '\n');
  }

  /** Printing that one route gives the kernel two. */
  lemma SmuggledRoute(r: RouteIR, dest: string)
    requires r.metric == 0 && r.dev == SmugglingDev(dest) && IsWord(dest)
    ensures Accepts(Artifact([r])) && Terminated(Artifact([r]))
    ensures Dests(Artifact([r])) == [PrefixText(r.destination), dest]
  {
    var own := RouteBlock(r);
    var more := Trim(REPLACE + dest);
    SmuggledLine(r, dest);
    ReplaceReadsBack(dest, "");
    assert REPLACE + dest + "" == REPLACE + dest;
    LinesOfPieces(LinesOf([r]));
    UnlinesTerminated(LinesOf([r]));
    assert LinesOf([r]) == [LineOf(r)];
    OnePiece(LineOf(r));
    hide LineOf, IsReplace, RouteDest, NonBlank, Split, Artifact;
    assert Lines(Unlines([LineOf(r)])) == [own, more];
    ArtifactIs([r]);
    assert [own, more][1..] == [more] && [more][1..] == [];
    assert DestsOf([more]) == [dest] && DestsOf([own, more]) == [PrefixText(r.destination)] + [dest];
  }

  lemma ArtifactIs(rs: seq<RouteIR>)
    ensures Artifact(rs) == Unlines(LinesOf(rs))
  {
  }

  lemma OnePiece(l: string)
    ensures Pieces([l]) == Split(l, '\n')
  {
    assert [l][1..] == [];
  }

  // ---- from the routes of a run to the table ----

  function Artifacts(rss: seq<seq<RouteIR>>): seq<string> {
    seq(|rss|, i requires 0 <= i < |rss| => Artifact(rss[i]))
  }

  ghost function EverNamed(rss: seq<seq<RouteIR>>): set<string> {
    if rss == [] then {} else Elems(RouteDests(rss[0])) + EverNamed(rss[1..])
  }

  lemma {:induction false} EverManagedIs(state: string, rss: seq<seq<RouteIR>>)
    requires forall rs :: rs in rss ==> DevsFit(rs)
    ensures EverManaged(state, Artifacts(rss)) == DestSet(state) + EverNamed(rss)
    decreases |rss|
  {
    if rss != [] {
      hide Artifact, DevsFit, RouteDests, Lines;
      assert rss[0] in rss && forall rs :: rs in rss[1..] ==> rs in rss;
      RenderedReadsBackIff(rss[0]);
      EverManagedIs(Artifact(rss[0]), rss[1..]);
      assert Artifacts(rss)[1..] == Artifacts(rss[1..]);
    }
  }

  /**
    Applying what was printed for one list of routes after the other leaves in the table the last
    list's destinations, and of those that were there before just the ones that neither the first
    state file nor any of the lists names.
   */
  lemma RoutesApplied(table: set<string>, state: string, rss: seq<seq<RouteIR>>)
    requires rss != [] && forall rs :: rs in rss ==> DevsFit(rs)
    ensures TableAfter(table, state, Artifacts(rss))
         == table - (DestSet(state) + EverNamed(rss)) + Elems(RouteDests(rss[|rss| - 1]))
  {
    hide Artifact, DevsFit, RouteDests, Lines, TableAfter, EverNamed, EverManaged;
    var configs := Artifacts(rss);
    forall c | c in configs
      ensures Accepts(c) && Terminated(c)
    {
      var i :| 0 <= i < |rss| && configs[i] == c;
      assert rss[i] in rss;
      RenderedReadsBackIff(rss[i]);
    }
    RunReconciles(table, state, configs);
    EverManagedIs(state, rss);
    var last := rss[|rss| - 1];
    assert last in rss;
    RenderedReadsBackIff(last);
  }
}

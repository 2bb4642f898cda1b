/** The routing daemons: the marker line that names them, and the rewrite of the daemons file. */
module Frr {
  import opened Basics
  import opened IntermediateForm
  import opened Text

  const MARKER := "! openngfw-daemons: "

  function DaemonsOf(routing: Option<RoutingIR>): seq<string> {
    if routing.None? then []
    else (if routing.value.bgp then ["bgpd"] else []) + (if routing.value.ospf then ["ospfd"] else [])
  }

  /** The text after the marker on the first line. */
  function MarkerValue(routing: Option<RoutingIR>): string {
    if routing.None? then "none" else Join(DaemonsOf(routing), ",")
  }

  /** The artifact; `body` is the routing configuration proper. */
  function Artifact(routing: Option<RoutingIR>, body: string): string {
    MARKER + MarkerValue(routing) + "\n" + (if routing.None? then "" else body)
  }

  method Render(routing: Option<RoutingIR>, body: string) returns (text: string)
    ensures text == Artifact(routing, body)
  {
    if routing.None? {
      return MARKER + "none" + "\n" + "";
    }
    var daemons: seq<string> := [];
    if routing.value.bgp {
      daemons := daemons + ["bgpd"];
    }
    if routing.value.ospf {
      daemons := daemons + ["ospfd"];
    }
    assert daemons == DaemonsOf(routing);
    return MARKER + Join(daemons, ",") + "\n" + body;
  }

  // ---- the marker parser ----

  function DaemonList(v: string): seq<string> {
    if v == "none" || v == "" then [] else Split(v, ',')
  }

  function FirstMarker(ls: seq<string>): seq<string> {
    if ls == [] then []
    else
      match CutPrefix(ls[0], MARKER)
      case Some(v) => DaemonList(Trim(v))
      case None => FirstMarker(ls[1..])
  }

  method ParseDaemons(config: string) returns (daemons: seq<string>)
    ensures daemons == FirstMarker(ScanLines(config))
  {
    var ls := ScanLines(config);
    for i := 0 to |ls|
      invariant FirstMarker(ls) == FirstMarker(ls[i..])
    {
      assert ls[i..][1..] == ls[i + 1..];
      var cut := CutPrefix(ls[i], MARKER);
      if cut.Some? {
        var v := Trim(cut.value);
        if v == "none" || v == "" {
          return [];
        }
        return Split(v, ',');
      }
    }
    return [];
  }

  lemma DaemonNames()
    ensures IsWord("bgpd") && IsWord("ospfd") && ',' !in "bgpd" && ',' !in "ospfd" && NoSpace("none")
  {
  }

  lemma MarkerValueShape(routing: Option<RoutingIR>)
    ensures NoSpace(MarkerValue(routing)) && DaemonList(MarkerValue(routing)) == DaemonsOf(routing)
  {
    DaemonNames();
    if routing.Some? && DaemonsOf(routing) != [] {
      var ds := DaemonsOf(routing);
      assert forall d :: d in ds ==> d == "bgpd" || d == "ospfd";
      JoinNoSpace(ds, ",");
      assert Join(ds, ",")[0] == ds[0][0];
      SplitJoin(ds, ',');
    }
  }

  lemma MarkerShape()
    ensures '\n' !in MARKER && MARKER[|MARKER| - 1] == ' '
  {
  }

  lemma CutOwn(prefix: string, v: string)
    ensures CutPrefix(prefix + v, prefix) == Some(v)
  {
    assert (prefix + v)[|prefix|..] == v;
  }

  lemma NoCR(a: string, b: string)
    requires a != "" && a[|a| - 1] != '\r' && (b == "" || b[|b| - 1] != '\r')
    ensures DropCR(a + b) == a + b
  {
    assert b != "" ==> (a + b)[|a + b| - 1] == b[|b| - 1];
    assert b == "" ==> a + b == a;
  }

  /** The engine recovers exactly the enabled protocols, for every routing section and every body. */
  lemma MarkerRoundTrip(routing: Option<RoutingIR>, body: string)
    ensures FirstMarker(ScanLines(Artifact(routing, body))) == DaemonsOf(routing)
  {
    var v := MarkerValue(routing);
    MarkerValueShape(routing);
    MarkerShape();
    NoCR(MARKER, v);
    ScanFirst(MARKER + v, if routing.None? then "" else body);
    CutOwn(MARKER, v);
    NoSpaceTidy(v);
    TrimTrimmed(v);
  }

  /** The body follows the marker line unchanged; without routing nothing does. */
  lemma BodyFollows(routing: Option<RoutingIR>, body: string)
    ensures Cut(Artifact(routing, body), '\n')
            == (MARKER + MarkerValue(routing), if routing.Some? then body else "", true)
  {
    var first, rest := MARKER + MarkerValue(routing), if routing.None? then "" else body;
    MarkerShape();
    MarkerValueShape(routing);
    NoSpaceTidy(MarkerValue(routing));
    assert Artifact(routing, body) == first + ['\n'] + rest;
    CutAt(first, rest, '\n');
  }

  // ---- the daemons file ----

  predicate Managed(name: string) {
    name == "bgpd" || name == "ospfd"
  }

  /** The variable a line of the daemons file sets, if it sets one. */
  function NameOn(line: string): Option<string> {
    var (name, _, found) := Cut(line, '=');
    if found then Some(Trim(name)) else None
  }

  function Setting(name: string, on: bool): string {
    name + (if on then "=yes" else "=no")
  }

  function Rewritten(line: string, wanted: seq<string>): string {
    match NameOn(line)
    case Some(name) => if Managed(name) then Setting(name, name in wanted) else line
    case None => line
  }

  function RewriteLines(ls: seq<string>, wanted: seq<string>): seq<string> {
    seq(|ls|, i requires 0 <= i < |ls| => Rewritten(ls[i], wanted))
  }

  function Rewrite(raw: string, wanted: seq<string>): string {
    Join(RewriteLines(Split(raw, '\n'), wanted), "\n")
  }

  method EnableDaemons(raw: string, wanted: seq<string>) returns (out: string)
    ensures out == Rewrite(raw, wanted)
  {
    var want: set<string> := {};
    for i := 0 to |wanted|
      invariant want == Elems(wanted[..i])
    {
      assert wanted[..i + 1] == wanted[..i] + [wanted[i]];
      want := want + {wanted[i]};
    }
    assert wanted[..|wanted|] == wanted;
    var ls := Split(raw, '\n');
    var kept: seq<string> := [];
    for i := 0 to |ls|
      invariant kept == RewriteLines(ls, wanted)[..i]
    {
      var (before, _, found) := Cut(ls[i], '=');
      var name := Trim(before);
      var line := ls[i];
      if found && Managed(name) {
        if name in want {
          line := name + "=yes";
        } else {
          line := name + "=no";
        }
      }
      assert line == RewriteLines(ls, wanted)[i];
      kept := kept + [line];
    }
    assert kept == RewriteLines(ls, wanted);
    return Join(kept, "\n");
  }

  lemma SettingReadsBack(name: string, on: bool)
    requires Managed(name)
    ensures NameOn(Setting(name, on)) == Some(name) && '\n' !in Setting(name, on)
  {
    var v := if on then "yes" else "no";
    assert Setting(name, on) == name + ['='] + v;
    CutAt(name, v, '=');
    TrimTrimmed(name);
  }

  lemma RewrittenLine(line: string, wanted: seq<string>, again: seq<string>)
    requires '\n' !in line
    ensures '\n' !in Rewritten(line, wanted)
    ensures NameOn(Rewritten(line, wanted)) == NameOn(line)
    ensures Rewritten(Rewritten(line, wanted), again) == Rewritten(line, again)
  {
    if NameOn(line).Some? && Managed(NameOn(line).value) {
      var name := NameOn(line).value;
      SettingReadsBack(name, name in wanted);
    }
  }

  /**
    The rewrite works line by line: same number of lines in the same order; a line that sets a
    managed daemon says yes exactly if the daemon is wanted; every other line is the same text.
   */
  lemma RewriteIsLinewise(raw: string, wanted: seq<string>)
    ensures var before, after := Split(raw, '\n'), Split(Rewrite(raw, wanted), '\n');
            && |after| == |before|
            && forall i :: 0 <= i < |before| ==>
                 var name := Trim(Cut(before[i], '=').0);
                 if '=' in before[i] && (name == "bgpd" || name == "ospfd")
                 then after[i] == name + (if name in wanted then "=yes" else "=no")
                 else after[i] == before[i]
  {
    SplitRewrite(raw, wanted);
    var before := Split(raw, '\n');
    forall i | 0 <= i < |before|
      ensures Cut(before[i], '=').2 <==> '=' in before[i]
    {
      CutFacts(before[i], '=');
    }
    hide Trim, Cut;
  }

  lemma SplitRewrite(raw: string, wanted: seq<string>)
    ensures Split(Rewrite(raw, wanted), '\n') == RewriteLines(Split(raw, '\n'), wanted)
  {
    var ls := Split(raw, '\n');
    SplitPieces(raw, '\n');
    forall l | l in RewriteLines(ls, wanted)
      ensures '\n' !in l
    {
      var i :| 0 <= i < |ls| && RewriteLines(ls, wanted)[i] == l;
      assert ls[i] in ls;
      RewrittenLine(ls[i], wanted, wanted);
    }
    SplitJoin(RewriteLines(ls, wanted), '\n');
  }

  /** Only the last rewrite counts; in particular rewriting is idempotent. */
  lemma RewriteTwice(raw: string, wanted: seq<string>, again: seq<string>)
    ensures Rewrite(Rewrite(raw, wanted), again) == Rewrite(raw, again)
  {
    var ls := Split(raw, '\n');
    SplitRewrite(raw, wanted);
    SplitPieces(raw, '\n');
    forall i | 0 <= i < |ls|
      ensures Rewritten(Rewritten(ls[i], wanted), again) == Rewritten(ls[i], again)
    {
      assert ls[i] in ls;
      RewrittenLine(ls[i], wanted, again);
    }
    assert RewriteLines(RewriteLines(ls, wanted), again) == RewriteLines(ls, again);
  }

  /** Does the file say that the daemon starts? The last line that sets it decides, by what follows the equals sign. */
  predicate Starts(ls: seq<string>, daemon: string) {
    if ls == [] then false
    else if NameOn(ls[|ls| - 1]) == Some(daemon) then Cut(ls[|ls| - 1], '=').1 == "yes"
    else Starts(ls[..|ls| - 1], daemon)
  }

  lemma LastLine(line: string, wanted: seq<string>, daemon: string)
    requires Managed(daemon) && '\n' !in line
    ensures NameOn(Rewritten(line, wanted)) == NameOn(line)
    ensures NameOn(line) == Some(daemon) ==> (Cut(Rewritten(line, wanted), '=').1 == "yes" <==> daemon in wanted)
  {
    RewrittenLine(line, wanted, wanted);
    SettingValue(daemon, daemon in wanted);
  }

  lemma SettingValue(daemon: string, on: bool)
    requires Managed(daemon)
    ensures Cut(Setting(daemon, on), '=').1 == if on then "yes" else "no"
  {
    var v := if on then "yes" else "no";
    assert Setting(daemon, on) == daemon + ['='] + v;
    CutAt(daemon, v, '=');
  }

  lemma {:induction false} StartsAfter(ls: seq<string>, wanted: seq<string>, daemon: string)
    requires Managed(daemon) && forall l :: l in ls ==> '\n' !in l
    ensures Starts(RewriteLines(ls, wanted), daemon) <==> daemon in wanted && Mentions(ls, daemon)
  {
    hide NameOn, Rewritten, Setting, Mentions, Cut;
    if ls != [] {
      var n := |ls| - 1;
      assert ls[n] in ls && forall l :: l in ls[..n] ==> l in ls;
      assert RewriteLines(ls, wanted)[..n] == RewriteLines(ls[..n], wanted);
      LastLine(ls[n], wanted, daemon);
      MentionsSnoc(ls[..n], ls[n], daemon);
      assert ls == ls[..n] + [ls[n]];
      StartsAfter(ls[..n], wanted, daemon);
    } else {
      NothingMentioned(daemon);
    }
  }

  lemma NothingMentioned(daemon: string)
    ensures !Mentions([], daemon)
  {
  }

  /** Some line sets the daemon. */
  ghost predicate Mentions(ls: seq<string>, daemon: string) {
    exists l :: l in ls && NameOn(l) == Some(daemon)
  }

  lemma MentionsSnoc(ls: seq<string>, l: string, daemon: string)
    ensures Mentions(ls + [l], daemon) <==> Mentions(ls, daemon) || NameOn(l) == Some(daemon)
  {
    hide NameOn;
    assert l in ls + [l] && forall x :: x in ls + [l] <==> x in ls || x == l;
  }

  /**
    The exact effect: after the rewrite a managed daemon starts if and only if it is wanted and
    the file already had a line for it. A wanted daemon without a line is not enabled.
   */
  lemma DaemonStartsIff(raw: string, wanted: seq<string>, daemon: string)
    requires Managed(daemon)
    ensures Starts(Split(Rewrite(raw, wanted), '\n'), daemon)
            <==> daemon in wanted && Mentions(Split(raw, '\n'), daemon)
  {
    SplitRewrite(raw, wanted);
    SplitPieces(raw, '\n');
    StartsAfter(Split(raw, '\n'), wanted, daemon);
  }

  // ---- the engine ----

  /** How the mark takes being set or removed; a failed write may have created the file all the same. */
  datatype Marking = Stored | Fails(created: bool)

  /** What the file system does to the three files. */
  datatype Writes = Writes(daemons: Write, config: Write, mark: Marking) {
    predicate Marks() {
      mark.Stored? || mark.created
    }
  }

  /** The engine's files. Without a daemons file FRR is not installed. */
  class Engine {
    var config: string
    var daemons: Option<string>
    var managed: bool

    constructor (config: string, daemons: Option<string>)
      ensures this.config == config && this.daemons == daemons && !managed
    {
      this.config, this.daemons, managed := config, daemons, false;
    }

    /**
      A node whose policy never enabled routing is left alone; otherwise the daemons file is
      rewritten before the config, and the managed mark follows a successful reload. The writes are
      tried in this order, and the first that fails ends the apply.
     */
    method Apply(text: string, w: Writes, reloads: bool) returns (ok: bool)
      modifies this
      ensures var wanted := FirstMarker(ScanLines(text));
              if wanted == [] && !old(managed) then
                ok && config == old(config) && daemons == old(daemons) && !managed
              else if wanted == [] then
                && ok == (w.config.Stored? && reloads && w.mark.Stored?) && daemons == old(daemons)
                && config == Written(text, w.config)
                && managed == !(w.config.Stored? && reloads && w.mark.Stored?)
              else if old(daemons).None? then
                !ok && config == old(config) && daemons == old(daemons) && managed == old(managed)
              else
                && ok == (w.daemons.Stored? && w.config.Stored? && reloads && w.mark.Stored?)
                && daemons == Some(Written(Rewrite(old(daemons).value, wanted), w.daemons))
                && config == (if w.daemons.Stored? then Written(text, w.config) else old(config))
                && managed == (old(managed) || (w.daemons.Stored? && w.config.Stored? && reloads && w.Marks()))
    {
      var wanted := ParseDaemons(text);
      if |wanted| == 0 {
        if !managed {
          return true;
        }
        config := Written(text, w.config);
        if !w.config.Stored? || !reloads || !w.mark.Stored? {
          return false;
        }
        managed := false;
        return true;
      }
      if daemons.None? {
        return false;
      }
      var out := EnableDaemons(daemons.value, wanted);
      daemons := Some(Written(out, w.daemons));
      if !w.daemons.Stored? {
        return false;
      }
      config := Written(text, w.config);
      if !w.config.Stored? || !reloads {
        return false;
      }
      managed := managed || w.Marks();
      return w.mark.Stored?;
    }
  }
}

/**
  The Suricata artifact: marker lines and the rule-file list, printed by the renderer and scanned
  back by the engine. The fixed lines of the file come from a template.
 */
module Suricata {
  import opened Basics
  import opened IntermediateForm
  import opened LinkCompiler
  import opened Net
  import opened PolicyModel
  import opened Text
  import opened WellFormedness
  import opened NetText

  const MODE := "# openngfw-mode: "
  const QUEUE := "# openngfw-queue: "
  const RULES := "rule-files:"
  const ITEM := "  - "

  const ETHERNET_HEADER := 18

  /** The directories and the fixed blocks of lines (outputs and statistics; protocols and logging). */
  datatype Template = Template(logDir: string, rulesDir: string, outputs: seq<string>, logging: seq<string>)

  function ModeName(ids: IdsIR): string {
    if ids.prevent then "prevent" else "detect"
  }

  /** The capture length that fits a link of this MTU, in 32 bits. */
  function CaptureSize(maxMtu: nat): nat {
    (maxMtu + ETHERNET_HEADER) % 0x1_0000_0000
  }

  // ---- the printer ----

  function ItemLines(names: seq<string>): seq<string> {
    seq(|names|, i requires 0 <= i < |names| => ITEM + names[i])
  }

  function MarkerLines(ids: IdsIR): seq<string> {
    ["%YAML 1.1", "---", MODE + ModeName(ids)] + (if ids.prevent then [QUEUE + Dec(ids.queueNum)] else [])
  }

  function HeadLines(ids: IdsIR): seq<string> {
    MarkerLines(ids) + [BANNER, ""]
  }

  function HomeNets(ids: IdsIR): string {
    "\"[" + Join(PrefixTexts(ids.homeNets), ",") + "]\""
  }

  function VarLines(ids: IdsIR): seq<string> {
    ["vars:", "  address-groups:", "    HOME_NET: " + HomeNets(ids), "    EXTERNAL_NET: " + "\"!$HOME_NET\"", ""]
  }

  function SizeLines(network: Option<NetworkIR>, t: Template): seq<string> {
    ["default-log-dir: " + t.logDir]
    + (if network.Some? && network.value.maxMtu > 0
       then ["default-packet-" + "size: " + Dec(CaptureSize(network.value.maxMtu))] else [])
    + [""]
  }

  function CaptureBlock(ifc: string, id: nat): seq<string> {
    ["  - interface: " + ifc, "    cluster-id: " + Dec(id), "    cluster-type: " + "cluster_flow", "    defrag: yes"]
  }

  function CaptureLines(ifcs: seq<string>, first: nat): seq<string> {
    if ifcs == [] then [] else CaptureBlock(ifcs[0], first) + CaptureLines(ifcs[1..], first + 1)
  }

  function InputLines(ids: IdsIR): seq<string> {
    if ids.prevent then ["nfq:", "  mode: accept", ""]
    else ["af-packet:"] + CaptureLines(ids.interfaces, 90) + [""]
  }

  /** Everything before the rule-file list. */
  function FrontLines(ids: IdsIR, network: Option<NetworkIR>, t: Template): seq<string> {
    HeadLines(ids) + VarLines(ids) + SizeLines(network, t) + t.outputs + InputLines(ids)
    + ["default-rule-path: " + t.rulesDir]
  }

  function LinesOf(ids: Option<IdsIR>, network: Option<NetworkIR>, t: Template): seq<string> {
    if ids.None? then [MODE + "disabled"]
    else FrontLines(ids.value, network, t) + [RULES] + ItemLines(ids.value.ruleFiles) + [""] + t.logging
  }

  function Artifact(ids: Option<IdsIR>, network: Option<NetworkIR>, t: Template): string {
    Unlines(LinesOf(ids, network, t))
  }

  // ---- the scanners ----

  datatype Mode = Mode(name: string, queue: string)

  const NO_MODE := Mode("disabled", "0")

  function ModeStep(m: Mode, line: string): Mode {
    var m' := if HasPrefix(line, MODE) then m.(name := Trim(line[|MODE|..])) else m;
    if HasPrefix(line, QUEUE) then m'.(queue := Trim(line[|QUEUE|..])) else m'
  }

  /** Every marker overwrites the one before. */
  function ModeAfter(m: Mode, ls: seq<string>): Mode
    decreases |ls|
  {
    if ls == [] then m else ModeAfter(ModeStep(m, ls[0]), ls[1..])
  }

  method ParseMode(config: string) returns (m: Mode)
    ensures m == ModeAfter(NO_MODE, ScanLines(config))
  {
    m := NO_MODE;
    var ls := ScanLines(config);
    assert ls[0..] == ls;
    for i := 0 to |ls|
      invariant ModeAfter(NO_MODE, ls) == ModeAfter(m, ls[i..])
    {
      assert ls[i..][1..] == ls[i + 1..];
      ghost var before := m;
      var mode := CutPrefix(ls[i], MODE);
      if mode.Some? {
        m := m.(name := Trim(mode.value));
      }
      var queue := CutPrefix(ls[i], QUEUE);
      if queue.Some? {
        m := m.(queue := Trim(queue.value));
      }
      assert m == ModeStep(before, ls[i]);
    }
  }

  /** The rule files named after a rule-file heading, in order. */
  function RuleFilesFrom(inList: bool, ls: seq<string>): seq<string>
    decreases |ls|
  {
    if ls == [] then []
    else if HasPrefix(ls[0], RULES) then RuleFilesFrom(true, ls[1..])
    else if inList && HasPrefix(ls[0], ITEM) then [Trim(ls[0][|ITEM|..])] + RuleFilesFrom(true, ls[1..])
    else RuleFilesFrom(false, ls[1..])
  }

  function RuleFilesIn(config: string): seq<string> {
    RuleFilesFrom(false, ScanLines(config))
  }

  /** The paths that the names stand for. */
  ghost function Paths(names: seq<string>, path: string -> string): set<string> {
    set f | f in names :: path(f)
  }

  /** Every path is there already or can be created. */
  predicate Creatable(names: seq<string>, path: string -> string, files: set<string>, unwritable: set<string>) {
    forall f :: f in names && path(f) in unwritable ==> path(f) in files
  }

  /** Creation ended at the k-th name, the first one that is not there and cannot be created. */
  ghost predicate EndedAt(names: seq<string>, path: string -> string, files: set<string>, unwritable: set<string>,
                          after: set<string>, k: nat) {
    && k < |names| && path(names[k]) in unwritable && path(names[k]) !in files
    && Creatable(names[..k], path, files, unwritable) && after == files + Paths(names[..k], path)
  }

  /**
    Create the rule files that do not exist yet, up to the first that cannot be created. `path` is the
    path that a name resolves to under the rules directory, which is itself the path of the empty name.
   */
  method EnsureRuleFiles(config: string, path: string -> string, files: set<string>, makesDir: bool,
                         unwritable: set<string>)
    returns (ok: bool, after: set<string>)
    ensures var there := files + {path("")};
            && (ok <==> makesDir && Creatable(RuleFilesIn(config), path, there, unwritable))
            && (ok ==> after == there + Paths(RuleFilesIn(config), path))
            && (!makesDir ==> after == files)
            && (makesDir && !ok ==> exists k: nat :: EndedAt(RuleFilesIn(config), path, there, unwritable, after, k))
  {
    after := files;
    if !makesDir {
      return false, after;
    }
    after := after + {path("")};
    ghost var there := after;
    var inList := false;
    var ls := ScanLines(config);
    ghost var all, done: seq<string> := RuleFilesIn(config), [];
    assert ls[0..] == ls && [] + all == all;
    for i := 0 to |ls|
      invariant done + RuleFilesFrom(inList, ls[i..]) == all
      invariant after == there + Paths(done, path) && Creatable(done, path, there, unwritable)
    {
      assert ls[i..][1..] == ls[i + 1..];
      if HasPrefix(ls[i], RULES) {
        inList := true;
        continue;
      }
      if inList {
        var name := CutPrefix(ls[i], ITEM);
        if name.None? {
          inList := false;
          continue;
        }
        var file := path(Trim(name.value));
        ghost var rest := RuleFilesFrom(true, ls[i + 1..]);
        MoveBrackets(done, [Trim(name.value)], rest, all);
        if file !in after {
          if file in unwritable {
            assert all[|done|] == Trim(name.value) && all[..|done|] == done;
            assert EndedAt(all, path, there, unwritable, after, |done|);
            return false, after;
          }
          after := after + {file};
        }
        done := done + [Trim(name.value)];
      }
    }
    assert ls[|ls|..] == [] && done + [] == done;
    return true, after;
  }

  // ---- the renderer, step by step ----

  method RenderInput(ids: IdsIR) returns (ls: seq<string>)
    ensures ls == InputLines(ids)
  {
    if ids.prevent {
      return ["nfq:", "  mode: accept", ""];
    }
    var capture := RenderCapture(ids.interfaces);
    return ["af-packet:"] + capture + [""];
  }

  lemma CaptureFrom(ifcs: seq<string>, i: nat)
    requires i < |ifcs|
    ensures CaptureLines(ifcs[i..], 90 + i) == CaptureBlock(ifcs[i], 90 + i) + CaptureLines(ifcs[i + 1..], 91 + i)
  {
    assert ifcs[i..][1..] == ifcs[i + 1..];
  }

  method RenderCapture(ifcs: seq<string>) returns (ls: seq<string>)
    ensures ls == CaptureLines(ifcs, 90)
  {
    ls := [];
    ghost var all := CaptureLines(ifcs, 90);
    assert ifcs[0..] == ifcs && [] + all == all;
    for i := 0 to |ifcs|
      invariant ls + CaptureLines(ifcs[i..], 90 + i) == all
    {
      CaptureFrom(ifcs, i);
      MoveBrackets(ls, CaptureBlock(ifcs[i], 90 + i), CaptureLines(ifcs[i + 1..], 91 + i), all);
      ls := ls + CaptureBlock(ifcs[i], 90 + i);
    }
    assert ifcs[|ifcs|..] == [] && ls + [] == ls;
  }

  method RenderItems(names: seq<string>) returns (ls: seq<string>)
    ensures ls == ItemLines(names)
  {
    ls := [];
    for i := 0 to |names|
      invariant ls == ItemLines(names)[..i]
    {
      ls := ls + [ITEM + names[i]];
    }
  }

  method Render(ids: Option<IdsIR>, network: Option<NetworkIR>, t: Template) returns (text: string)
    ensures text == Artifact(ids, network, t)
  {
    if ids.None? {
      return Unlines([MODE + "disabled"]);
    }
    var input := RenderInput(ids.value);
    var front := HeadLines(ids.value) + VarLines(ids.value) + SizeLines(network, t) + t.outputs + input
                 + ["default-rule-path: " + t.rulesDir];
    var items := RenderItems(ids.value.ruleFiles);
    return Unlines(front + [RULES] + items + [""] + t.logging);
  }

  // ---- lines that no scanner takes notice of ----

  predicate OneLine(s: string) {
    '\n' !in s
  }

  /** Neither a marker nor a rule-file heading. */
  predicate Quiet(l: string) {
    OneLine(l) && !HasPrefix(l, MODE) && !HasPrefix(l, QUEUE) && !HasPrefix(l, RULES)
  }

  predicate AllQuiet(ls: seq<string>) {
    forall l :: l in ls ==> Quiet(l)
  }

  lemma MarkersShape()
    ensures |MODE| > 3 && MODE[0] == '#' && MODE[2] == 'o' && OneLine(MODE)
    ensures |QUEUE| > 3 && QUEUE[0] == '#' && QUEUE[2] == 'o' && OneLine(QUEUE)
    ensures |RULES| > 3 && RULES[0] == 'r' && OneLine(RULES)
    ensures |ITEM| > 3 && ITEM[0] == ' ' && OneLine(ITEM)
  {
  }

  /** The first character is enough to tell. */
  lemma QuietByFront(front: string, rest: string)
    requires OneLine(front) && OneLine(rest) && front != "" && front[0] != '#' && front[0] != 'r'
    ensures Quiet(front + rest)
  {
    MarkersShape();
    var l := front + rest;
    assert l[0] == front[0];
    PrefixChar(l, MODE, 0);
    PrefixChar(l, QUEUE, 0);
    PrefixChar(l, RULES, 0);
  }

  lemma BannerQuiet()
    ensures Quiet(BANNER)
  {
    MarkersShape();
    BannerShape();
    PrefixChar(BANNER, MODE, 2);
    PrefixChar(BANNER, QUEUE, 2);
    PrefixChar(BANNER, RULES, 0);
  }

  lemma DropCRPrefix(l: string, p: string)
    requires HasPrefix(DropCR(l), p)
    ensures HasPrefix(l, p)
  {
    assert DropCR(l)[..|p|] == l[..|p|];
  }

  lemma DropCRQuiet(ls: seq<string>)
    requires AllQuiet(ls)
    ensures AllQuiet(DropCRs(ls))
  {
    forall l | l in DropCRs(ls)
      ensures Quiet(l)
    {
      var i :| 0 <= i < |ls| && DropCRs(ls)[i] == l;
      assert ls[i] in ls;
      if HasPrefix(l, MODE) {
        DropCRPrefix(ls[i], MODE);
      }
      if HasPrefix(l, QUEUE) {
        DropCRPrefix(ls[i], QUEUE);
      }
      if HasPrefix(l, RULES) {
        DropCRPrefix(ls[i], RULES);
      }
    }
  }

  lemma DropCRsConcat(a: seq<string>, b: seq<string>)
    ensures DropCRs(a + b) == DropCRs(a) + DropCRs(b)
  {
  }

  /** The node's directories stay on their line, and the fixed blocks are quiet. */
  predicate Fits(t: Template) {
    OneLine(t.logDir) && OneLine(t.rulesDir) && AllQuiet(t.outputs) && AllQuiet(t.logging)
  }

  lemma HomeNetsOneLine(ids: IdsIR)
    ensures OneLine(HomeNets(ids))
  {
    var texts := PrefixTexts(ids.homeNets);
    forall w | w in texts
      ensures NoSpace(w)
    {
      var i :| 0 <= i < |texts| && texts[i] == w;
      PrefixTextWord(ids.homeNets[i]);
    }
    JoinNoSpace(texts, ",");
  }

  lemma VarLinesQuiet(ids: IdsIR)
    ensures AllQuiet(VarLines(ids))
  {
    HomeNetsOneLine(ids);
    QuietByFront("    HOME_NET: ", HomeNets(ids));
    FixedQuiet();
  }

  lemma FixedQuiet()
    ensures Quiet("vars:") && Quiet("  address-groups:") && Quiet("    EXTERNAL_NET: " + "\"!$HOME_NET\"") && Quiet("")
  {
    BlankQuiet();
    QuietByFront("vars:", "");
    QuietByFront("  address-groups:", "");
    assert "vars:" + "" == "vars:" && "  address-groups:" + "" == "  address-groups:";
    QuietByFront("    EXTERNAL_NET: ", "\"!$HOME_NET\"");
  }

  lemma BlankQuiet()
    ensures Quiet("")
  {
    MarkersShape();
  }

  lemma SizeLinesQuiet(network: Option<NetworkIR>, t: Template)
    requires OneLine(t.logDir)
    ensures AllQuiet(SizeLines(network, t))
  {
    QuietByFront("default-log-dir: ", t.logDir);
    if network.Some? && network.value.maxMtu > 0 {
      var size := Dec(CaptureSize(network.value.maxMtu));
      DecDigits(CaptureSize(network.value.maxMtu));
      QuietByFront("default-packet-", "size: " + size);
      assert "default-packet-" + "size: " + size == "default-packet-" + ("size: " + size);
    }
    BlankQuiet();
  }

  // ---- the fixed blocks of the file ----

  const OUTPUTS: seq<string> := [
    "stats:", "  enabled: no", "",
    "outputs:", "  - eve-log:", "      enabled: yes", "      filetype: regular", "      filename: eve.json",
    "      types:",
    "        - alert", "        - http", "        - dns", "        - tls", "        - flow", ""]

  const LOGGING: seq<string> := [
    "app-layer:", "  protocols:", "    http:", "      enabled: yes", "    tls:", "      enabled: yes",
    "    dns:", "      tcp:", "        enabled: yes", "      udp:", "        enabled: yes", "",
    "logging:", "  default-log-level: notice", "  outputs:", "    - console:", "        enabled: yes"]

  /** The template of the renderer itself, for a node with these directories. */
  function NodeTemplate(logDir: string, rulesDir: string): Template {
    Template(logDir, rulesDir, OUTPUTS, LOGGING)
  }

  /** No marker starts like this. */
  predicate PlainFront(l: string) {
    OneLine(l) && (l == "" || (l[0] != '#' && l[0] != 'r'))
  }

  lemma PlainIsQuiet(ls: seq<string>)
    requires forall l :: l in ls ==> PlainFront(l)
    ensures AllQuiet(ls)
  {
    BlankQuiet();
    forall l | l in ls
      ensures Quiet(l)
    {
      if l != "" {
        assert l + "" == l && OneLine("");
        QuietByFront(l, "");
      }
    }
  }

  /** Its fixed blocks hold no marker, so it fits wherever the directories stay on their line. */
  lemma NodeTemplateFits(logDir: string, rulesDir: string)
    ensures Fits(NodeTemplate(logDir, rulesDir)) <==> OneLine(logDir) && OneLine(rulesDir)
  {
    OutputsPlain();
    LoggingPlain();
    hide OUTPUTS, LOGGING;
    PlainIsQuiet(OUTPUTS);
    PlainIsQuiet(LOGGING);
  }

  lemma OutputsPlain()
    ensures forall l :: l in OUTPUTS ==> PlainFront(l)
  {
  }

  lemma LoggingPlain()
    ensures forall l :: l in LOGGING ==> PlainFront(l)
  {
  }

  /** What lies between the markers and the input section. */
  function BeforeInput(ids: IdsIR, network: Option<NetworkIR>, t: Template): seq<string> {
    [BANNER, ""] + VarLines(ids) + SizeLines(network, t) + t.outputs
  }

  lemma BeforeInputQuiet(ids: IdsIR, network: Option<NetworkIR>, t: Template)
    requires Fits(t)
    ensures AllQuiet(BeforeInput(ids, network, t))
  {
    BannerQuiet();
    BlankQuiet();
    VarLinesQuiet(ids);
    SizeLinesQuiet(network, t);
  }

  /** The rest of a capture block, after its interface. */
  function BlockEnd(id: nat): seq<string> {
    ["    cluster-id: " + Dec(id), "    cluster-type: " + "cluster_flow", "    defrag: yes"]
  }

  lemma BlockEndQuiet(id: nat)
    ensures AllQuiet(BlockEnd(id)) && forall l :: l in BlockEnd(id) ==> !HasPrefix(l, ITEM)
  {
    DecDigits(id);
    NotItem("    cluster-id: ", Dec(id));
    NotItem("    cluster-type: ", "cluster_flow");
    NotItem("    defrag: yes", "");
    assert "    defrag: yes" + "" == "    defrag: yes";
  }

  /** A quiet line that is no list item either. */
  lemma NotItem(front: string, rest: string)
    requires OneLine(front) && OneLine(rest) && |front| > 2 && front[0] != '#' && front[0] != 'r' && front[2] != '-'
    ensures Quiet(front + rest) && !HasPrefix(front + rest, ITEM)
  {
    QuietByFront(front, rest);
    assert (front + rest)[2] == front[2] && ITEM[2] == '-';
    PrefixChar(front + rest, ITEM, 2);
  }

  /** The lines of the input section that hold no interface. */
  lemma InputFrameQuiet(t: Template)
    requires Fits(t)
    ensures AllQuiet(["nfq:", "  mode: accept", ""]) && Quiet("af-packet:") && Quiet("")
    ensures Quiet("default-rule-path: " + t.rulesDir)
  {
    BlankQuiet();
    QuietByFront("nfq:", "");
    QuietByFront("  mode: accept", "");
    QuietByFront("af-packet:", "");
    assert "nfq:" + "" == "nfq:" && "  mode: accept" + "" == "  mode: accept" && "af-packet:" + "" == "af-packet:";
    QuietByFront("default-rule-path: ", t.rulesDir);
  }

  /** Everything after the markers. */
  function BodyLines(ids: IdsIR, network: Option<NetworkIR>, t: Template): seq<string> {
    BeforeInput(ids, network, t)
    + (InputLines(ids) + (["default-rule-path: " + t.rulesDir] + ListLines(ids.ruleFiles, t)))
  }

  /** The rule-file list and what follows it. */
  function ListLines(names: seq<string>, t: Template): seq<string> {
    [RULES] + (ItemLines(names) + ([""] + t.logging))
  }

  lemma LinesAre(ids: IdsIR, network: Option<NetworkIR>, t: Template)
    ensures LinesOf(Some(ids), network, t) == MarkerLines(ids) + BodyLines(ids, network, t)
  {
    hide *;
    var path := ["default-rule-path: " + t.rulesDir];
    LinesUnfold(ids, network, t);
    Regroup(MarkerLines(ids), [BANNER, ""], VarLines(ids), SizeLines(network, t), t.outputs);
    Regroup4(MarkerLines(ids), BeforeInput(ids, network, t), InputLines(ids), path, [RULES], ItemLines(ids.ruleFiles),
             [""], t.logging);
  }

  lemma LinesUnfold(ids: IdsIR, network: Option<NetworkIR>, t: Template)
    ensures LinesOf(Some(ids), network, t)
         == MarkerLines(ids) + [BANNER, ""] + VarLines(ids) + SizeLines(network, t) + t.outputs + InputLines(ids)
            + ["default-rule-path: " + t.rulesDir] + [RULES] + ItemLines(ids.ruleFiles) + [""] + t.logging
    ensures BeforeInput(ids, network, t) == [BANNER, ""] + VarLines(ids) + SizeLines(network, t) + t.outputs
    ensures BodyLines(ids, network, t)
         == BeforeInput(ids, network, t)
            + (InputLines(ids) + (["default-rule-path: " + t.rulesDir]
                                  + ([RULES] + (ItemLines(ids.ruleFiles) + ([""] + t.logging)))))
  {
  }

  lemma Regroup<T>(m: seq<T>, a: seq<T>, b: seq<T>, c: seq<T>, d: seq<T>)
    ensures m + a + b + c + d == m + (a + b + c + d)
  {
  }

  lemma Regroup4<T>(m: seq<T>, a: seq<T>, i: seq<T>, p: seq<T>, b: seq<T>, c: seq<T>, d: seq<T>, e: seq<T>)
    ensures (m + a) + i + p + b + c + d + e == m + (a + (i + (p + (b + (c + (d + e))))))
  {
  }

  // ---- the mode reads back ----

  lemma {:induction false} ModeConcat(m: Mode, a: seq<string>, b: seq<string>)
    ensures ModeAfter(m, a + b) == ModeAfter(ModeAfter(m, a), b)
    decreases |a|
  {
    if a == [] {
      assert a + b == b;
    } else {
      assert (a + b)[1..] == a[1..] + b;
      ModeConcat(ModeStep(m, a[0]), a[1..], b);
    }
  }

  lemma {:induction false} ModeQuiet(m: Mode, ls: seq<string>)
    requires forall l :: l in ls ==> !HasPrefix(l, MODE) && !HasPrefix(l, QUEUE)
    ensures ModeAfter(m, ls) == m
    decreases |ls|
  {
    if ls != [] {
      assert ls[0] in ls && forall l :: l in ls[1..] ==> l in ls;
      ModeQuiet(m, ls[1..]);
    }
  }

  lemma MarkerStep(m: Mode, marker: string, v: string)
    requires (marker == MODE || marker == QUEUE) && v != "" && NoSpace(v)
    ensures DropCR(marker + v) == marker + v
    ensures ModeStep(m, marker + v) == if marker == MODE then m.(name := v) else m.(queue := v)
  {
    MarkersShape();
    var l := marker + v;
    assert l[|l| - 1] == v[|v| - 1];
    assert l[|marker|..] == v && l[..|marker|] == marker;
    NoSpaceTidy(v);
    TrimTrimmed(v);
    MarkersDiffer(v);
  }

  lemma MarkersDiffer(v: string)
    ensures !HasPrefix(MODE + v, QUEUE) && !HasPrefix(QUEUE + v, MODE)
  {
    assert MODE[11] == 'm' && QUEUE[11] == 'q';
    PrefixChar(MODE + v, QUEUE, 11);
    PrefixChar(QUEUE + v, MODE, 11);
  }

  lemma MarkersPlain(ids: IdsIR)
    ensures forall l :: l in MarkerLines(ids) ==> OneLine(l) && !HasPrefix(l, RULES) && !HasPrefix(l, ITEM)
  {
    var mode, queue := MODE + ModeName(ids), QUEUE + Dec(ids.queueNum);
    DecDigits(ids.queueNum);
    ModeNameWord(ids);
    MarkersShape();
    YamlQuiet();
    PrefixChar(mode, RULES, 0);
    PrefixChar(queue, RULES, 0);
    PrefixChar(mode, ITEM, 0);
    PrefixChar(queue, ITEM, 0);
    hide HasPrefix, MODE, QUEUE, RULES, ITEM;
  }

  lemma YamlFirst(rest: seq<string>)
    ensures DropCRs(["%YAML 1.1", "---"] + rest) == ["%YAML 1.1", "---"] + DropCRs(rest)
    ensures ModeAfter(NO_MODE, ["%YAML 1.1", "---"] + rest) == ModeAfter(NO_MODE, rest)
  {
    var yaml := ["%YAML 1.1", "---"];
    YamlQuiet();
    DropCRsConcat(yaml, rest);
    ModeQuiet(NO_MODE, yaml);
    ModeConcat(NO_MODE, yaml, rest);
  }

  lemma MarkersReadBack(ids: IdsIR)
    ensures forall l :: l in MarkerLines(ids) ==> OneLine(l) && !HasPrefix(l, RULES) && !HasPrefix(l, ITEM)
    ensures DropCRs(MarkerLines(ids)) == MarkerLines(ids)
    ensures ModeAfter(NO_MODE, MarkerLines(ids)) == Mode(ModeName(ids), if ids.prevent then Dec(ids.queueNum) else "0")
  {
    MarkersPlain(ids);
    DecDigits(ids.queueNum);
    ModeNameWord(ids);
    MarkerStep(NO_MODE, MODE, ModeName(ids));
    var m := NO_MODE.(name := ModeName(ids));
    MarkerStep(m, QUEUE, Dec(ids.queueNum));
    var mode, queue := MODE + ModeName(ids), QUEUE + Dec(ids.queueNum);
    hide HasPrefix, MODE, QUEUE, RULES, ITEM, ModeStep, ModeName, Dec, DropCR;
    var tail := if ids.prevent then [queue] else [];
    assert MarkerLines(ids) == ["%YAML 1.1", "---"] + ([mode] + tail);
    YamlFirst([mode] + tail);
    assert ([mode] + tail)[1..] == tail && [queue][1..] == [];
    assert ModeAfter(NO_MODE, [mode] + tail) == ModeAfter(m, tail);
  }

  lemma ModeNameWord(ids: IdsIR)
    ensures IsWord(ModeName(ids))
  {
  }

  lemma YamlQuiet()
    ensures AllQuiet(["%YAML 1.1", "---"]) && DropCRs(["%YAML 1.1", "---"]) == ["%YAML 1.1", "---"]
    ensures !HasPrefix("%YAML 1.1", ITEM) && !HasPrefix("---", ITEM)
  {
    MarkersShape();
    QuietByFront("%YAML 1.1", "");
    QuietByFront("---", "");
    assert "%YAML 1.1" + "" == "%YAML 1.1" && "---" + "" == "---";
    PrefixChar("%YAML 1.1", ITEM, 0);
    PrefixChar("---", ITEM, 0);
  }

  /** What the engine does with a mode. */
  datatype Dispatch = StopProcess | Detect | Prevent(queue: string) | UnknownMode(name: string)

  function DispatchOf(m: Mode): Dispatch {
    if m.name == "disabled" then StopProcess
    else if m.name == "detect" then Detect
    else if m.name == "prevent" then Prevent(m.queue)
    else UnknownMode(m.name)
  }

  // ---- what the supplied strings can do to the mode ----

  /** The value of the last line that starts with the marker, if there is one. */
  function LastMarked(ls: seq<string>, marker: string): Option<string> {
    if ls == [] then None
    else if HasPrefix(ls[|ls| - 1], marker) then Some(Trim(ls[|ls| - 1][|marker|..]))
    else LastMarked(ls[..|ls| - 1], marker)
  }

  function Or(o: Option<string>, default: string): string {
    if o.Some? then o.value else default
  }

  lemma TrimDropCR(s: string)
    ensures Trim(DropCR(s)) == Trim(s)
  {
  }

  /** Dropping a carriage return changes neither a marker nor its value. */
  lemma MarkerThroughCR(l: string, marker: string)
    requires marker != "" && marker[|marker| - 1] != '\r'
    ensures HasPrefix(DropCR(l), marker) <==> HasPrefix(l, marker)
    ensures HasPrefix(l, marker) ==> Trim(DropCR(l)[|marker|..]) == Trim(l[|marker|..])
  {
    if HasPrefix(DropCR(l), marker) {
      DropCRPrefix(l, marker);
    }
    if HasPrefix(l, marker) {
      assert l[|marker| - 1] == l[..|marker|][|marker| - 1] == marker[|marker| - 1];
      assert DropCR(l)[..|marker|] == l[..|marker|];
      assert DropCR(l)[|marker|..] == DropCR(l[|marker|..]);
      TrimDropCR(l[|marker|..]);
    }
  }

  lemma MarkersEnd()
    ensures MODE[|MODE| - 1] == ' ' && QUEUE[|QUEUE| - 1] == ' ' && RULES[|RULES| - 1] == ':' && ITEM[|ITEM| - 1] == ' '
  {
  }

  /** Scanning lines leaves the last value of each marker. */
  lemma {:induction false} ModeAfterIs(m: Mode, ls: seq<string>)
    ensures ModeAfter(m, DropCRs(ls)) == Mode(Or(LastMarked(ls, MODE), m.name), Or(LastMarked(ls, QUEUE), m.queue))
  {
    if ls != [] {
      var n := |ls| - 1;
      ModeAfterIs(m, ls[..n]);
      MarkersShape();
      MarkersEnd();
      MarkerThroughCR(ls[n], MODE);
      MarkerThroughCR(ls[n], QUEUE);
      var last := DropCR(ls[n]);
      assert DropCRs(ls) == DropCRs(ls[..n]) + [last];
      ModeConcat(m, DropCRs(ls[..n]), [last]);
      assert [last][1..] == [];
    }
  }

  /** The lines that the strings continue on, in the order they are printed. */
  function Continued(ss: seq<string>): seq<string> {
    if ss == [] then [] else Continuation(ss[0]) + Continued(ss[1..])
  }

  /** The interfaces that are printed: inline mode prints none. */
  function Shown(ids: IdsIR): seq<string> {
    if ids.prevent then [] else ids.interfaces
  }

  /** Every line that a supplied string puts into the file after its own first one. */
  function Later(ids: IdsIR): seq<string> {
    Continued(Shown(ids)) + Continued(ids.ruleFiles)
  }

  /** For every mode, scanning the printed lines does what scanning the continuation lines does. */
  ghost predicate SameMode(ls: seq<string>, cs: seq<string>) {
    forall m :: ModeAfter(m, DropCRs(Pieces(ls))) == ModeAfter(m, DropCRs(cs))
  }

  lemma SameModeConcat(a: seq<string>, x: seq<string>, b: seq<string>, y: seq<string>)
    requires SameMode(a, x) && SameMode(b, y)
    ensures SameMode(a + b, x + y)
  {
    PiecesConcat(a, b);
    DropCRsConcat(Pieces(a), Pieces(b));
    DropCRsConcat(x, y);
    forall m
      ensures ModeAfter(m, DropCRs(Pieces(a + b))) == ModeAfter(m, DropCRs(x + y))
    {
      ModeConcat(m, DropCRs(Pieces(a)), DropCRs(Pieces(b)));
      ModeConcat(m, DropCRs(x), DropCRs(y));
    }
  }

  lemma QuietIsNothing(ls: seq<string>)
    requires AllQuiet(ls)
    ensures SameMode(ls, [])
  {
    PiecesOfOneLiners(ls);
    DropCRQuiet(ls);
    forall m
      ensures ModeAfter(m, DropCRs(Pieces(ls))) == ModeAfter(m, DropCRs([]))
    {
      ModeQuiet(m, DropCRs(ls));
    }
  }

  lemma PiecesOfOne(l: string)
    ensures Pieces([l]) == Split(l, '\n')
  {
    assert [l][1..] == [];
  }

  /** A string printed behind a quiet front leaves its continuation. */
  lemma FrontedIsContinuation(front: string, s: string)
    requires OneLine(front) && front != "" && front[0] != '#' && front[0] != 'r'
    ensures SameMode([front + s], Continuation(s))
  {
    PiecesOfOne(front + s);
    SplitFront(front, s);
    SplitPieces(s, '\n');
    var first := front + Split(s, '\n')[0];
    assert Split(s, '\n')[0] in Split(s, '\n');
    QuietByFront(front, Split(s, '\n')[0]);
    DropCRQuiet([first]);
    DropCRsConcat([first], Continuation(s));
    forall m
      ensures ModeAfter(m, DropCRs([first] + Continuation(s))) == ModeAfter(m, DropCRs(Continuation(s)))
    {
      ModeConcat(m, DropCRs([first]), DropCRs(Continuation(s)));
      ModeQuiet(m, DropCRs([first]));
    }
  }

  lemma {:induction false} ItemsContinue(names: seq<string>)
    ensures SameMode(ItemLines(names), Continued(names))
  {
    MarkersShape();
    if names == [] {
      QuietIsNothing([]);
    } else {
      ItemsContinue(names[1..]);
      FrontedIsContinuation(ITEM, names[0]);
      assert ItemLines(names) == [ITEM + names[0]] + ItemLines(names[1..]);
      SameModeConcat([ITEM + names[0]], Continuation(names[0]), ItemLines(names[1..]), Continued(names[1..]));
    }
  }

  lemma InterfaceFront()
    ensures OneLine("  - interface: ") && "  - interface: "[0] == ' ' && HasPrefix("  - interface: ", ITEM)
  {
  }

  lemma {:induction false} CaptureContinues(ifcs: seq<string>, first: nat)
    ensures SameMode(CaptureLines(ifcs, first), Continued(ifcs))
    decreases |ifcs|
  {
    if ifcs == [] {
      QuietIsNothing([]);
    } else {
      var line, end, more := "  - interface: " + ifcs[0], BlockEnd(first), CaptureLines(ifcs[1..], first + 1);
      assert CaptureLines(ifcs, first) == [line] + (end + more);
      InterfaceFront();
      FrontedIsContinuation("  - interface: ", ifcs[0]);
      BlockEndQuiet(first);
      QuietIsNothing(end);
      CaptureContinues(ifcs[1..], first + 1);
      hide CaptureLines, BlockEnd, SameMode;
      SameModeConcat(end, [], more, Continued(ifcs[1..]));
      assert [] + Continued(ifcs[1..]) == Continued(ifcs[1..]);
      SameModeConcat([line], Continuation(ifcs[0]), end + more, Continued(ifcs[1..]));
    }
  }

  lemma InputContinues(ids: IdsIR, t: Template)
    requires Fits(t)
    ensures SameMode(InputLines(ids), Continued(Shown(ids)))
  {
    InputFrameQuiet(t);
    if ids.prevent {
      QuietIsNothing(InputLines(ids));
    } else {
      var capture := CaptureLines(ids.interfaces, 90);
      CaptureContinues(ids.interfaces, 90);
      QuietIsNothing(["af-packet:"]);
      QuietIsNothing([""]);
      hide CaptureLines, SameMode;
      SameModeConcat(["af-packet:"], [], capture, Continued(ids.interfaces));
      SameModeConcat(["af-packet:"] + capture, [] + Continued(ids.interfaces), [""], []);
      assert [] + Continued(ids.interfaces) + [] == Continued(ids.interfaces);
    }
  }

  lemma RulesHeading()
    ensures SameMode([RULES], []) && DropCR(RULES) == RULES && OneLine(RULES) && HasPrefix(RULES, RULES)
  {
    MarkersShape();
    MarkersEnd();
    PrefixChar(RULES, MODE, 0);
    PrefixChar(RULES, QUEUE, 0);
    hide MODE, QUEUE, RULES, ITEM;
    assert DropCR(RULES) == RULES && HasPrefix(RULES, RULES);
    UnmarkedIsNothing(RULES);
  }

  lemma UnmarkedIsNothing(l: string)
    requires OneLine(l) && DropCR(l) == l && !HasPrefix(l, MODE) && !HasPrefix(l, QUEUE)
    ensures SameMode([l], [])
  {
    hide HasPrefix, DropCR, MODE, QUEUE;
    PiecesOfOneLiners([l]);
    assert DropCRs([l]) == [l];
    forall m
      ensures ModeAfter(m, DropCRs(Pieces([l]))) == ModeAfter(m, DropCRs([]))
    {
      ModeQuiet(m, [l]);
    }
  }

  lemma ListContinues(names: seq<string>, t: Template)
    requires Fits(t)
    ensures SameMode(ListLines(names, t), Continued(names))
  {
    BlankQuiet();
    RulesHeading();
    ItemsContinue(names);
    QuietIsNothing([""] + t.logging);
    hide SameMode, RULES;
    SameModeConcat(ItemLines(names), Continued(names), [""] + t.logging, []);
    SameModeConcat([RULES], [], ItemLines(names) + ([""] + t.logging), Continued(names) + []);
    assert [] + (Continued(names) + []) == Continued(names);
  }

  lemma BodyContinues(ids: IdsIR, network: Option<NetworkIR>, t: Template)
    requires Fits(t)
    ensures SameMode(BodyLines(ids, network, t), Later(ids))
  {
    var before, path := BeforeInput(ids, network, t), ["default-rule-path: " + t.rulesDir];
    BeforeInputQuiet(ids, network, t);
    QuietIsNothing(before);
    InputContinues(ids, t);
    InputFrameQuiet(t);
    QuietIsNothing(path);
    ListContinues(ids.ruleFiles, t);
    hide SameMode, InputLines, ListLines, BeforeInput, Continued;
    var list, files := ListLines(ids.ruleFiles, t), Continued(ids.ruleFiles);
    SameModeConcat(path, [], list, files);
    assert [] + files == files;
    SameModeConcat(InputLines(ids), Continued(Shown(ids)), path + list, files);
    SameModeConcat(before, [], InputLines(ids) + (path + list), Later(ids));
    assert [] + Later(ids) == Later(ids);
  }

  function QueueText(ids: IdsIR): string {
    if ids.prevent then Dec(ids.queueNum) else "0"
  }

  function ModeRead(ids: Option<IdsIR>, network: Option<NetworkIR>, t: Template): Mode {
    ModeAfter(NO_MODE, ScanLines(Artifact(ids, network, t)))
  }

  /**
    What the engine reads: the mode and queue of the compiled form, unless a supplied string goes
    on over further lines and one of these starts with a marker; then the last such line counts.
   */
  lemma ModeIsRead(ids: IdsIR, network: Option<NetworkIR>, t: Template)
    requires Fits(t)
    ensures ModeRead(Some(ids), network, t)
         == Mode(Or(LastMarked(Later(ids), MODE), ModeName(ids)), Or(LastMarked(Later(ids), QUEUE), QueueText(ids)))
  {
    var marks, body := MarkerLines(ids), BodyLines(ids, network, t);
    LinesAre(ids, network, t);
    MarkersReadBack(ids);
    BodyContinues(ids, network, t);
    ScanUnlines(marks + body);
    PiecesConcat(marks, body);
    PiecesOfOneLiners(marks);
    DropCRsConcat(marks, Pieces(body));
    hide MarkerLines, BodyLines, Later, LinesOf;
    ModeConcat(NO_MODE, marks, DropCRs(Pieces(body)));
    ModeAfterIs(ModeAfter(NO_MODE, marks), Later(ids));
  }

  /** No line that starts with the marker, or the last one names this value. */
  predicate Agrees(ls: seq<string>, marker: string, v: string) {
    LastMarked(ls, marker).None? || LastMarked(ls, marker) == Some(v)
  }

  /**
    The engine recovers mode and queue if and only if, among the lines that interfaces and rule
    files continue on, the last one starting with a mode marker names the same mode, and the last
    one starting with a queue marker the same queue, where there are any.
   */
  lemma ModeRoundTripIff(ids: IdsIR, network: Option<NetworkIR>, t: Template)
    requires Fits(t)
    ensures ModeRead(Some(ids), network, t) == Mode(ModeName(ids), QueueText(ids))
            <==> Agrees(Later(ids), MODE, ModeName(ids)) && Agrees(Later(ids), QUEUE, QueueText(ids))
  {
    ModeIsRead(ids, network, t);
    hide ModeRead, ModeName, QueueText, LastMarked, Later;
  }

  /** What the compiled form asks for. */
  function Intended(ids: Option<IdsIR>): Dispatch {
    if ids.None? then StopProcess
    else if ids.value.prevent then Prevent(Dec(ids.value.queueNum))
    else Detect
  }

  /** No supplied string overrides what decides the dispatch. */
  predicate Undisturbed(ids: IdsIR) {
    Agrees(Later(ids), MODE, ModeName(ids)) && (ids.prevent ==> Agrees(Later(ids), QUEUE, QueueText(ids)))
  }

  /** So the engine stops, monitors or inspects inline as the compiled form says, exactly if nothing overrides it. */
  lemma DispatchIff(ids: Option<IdsIR>, network: Option<NetworkIR>, t: Template)
    requires Fits(t)
    ensures DispatchOf(ModeRead(ids, network, t)) == Intended(ids) <==> (ids.Some? ==> Undisturbed(ids.value))
  {
    if ids.Some? {
      ModeIsRead(ids.value, network, t);
      hide ModeRead, LastMarked, Later, Dec, ModeName, QueueText, MODE, QUEUE, Intended, DispatchOf;
      DispatchesAlike(ModeRead(ids, network, t), ids.value);
    } else {
      DisabledReadsBack();
    }
  }

  lemma DispatchesAlike(m: Mode, ids: IdsIR)
    ensures DispatchOf(m) == Intended(Some(ids))
            <==> m.name == ModeName(ids) && (ids.prevent ==> m.queue == QueueText(ids))
  {
    hide Dec;
  }

  /** Strings that stay on their lines override nothing. */
  lemma OneLinersUndisturbed(ids: IdsIR)
    requires forall s :: s in Shown(ids) + ids.ruleFiles ==> OneLine(s)
    ensures Undisturbed(ids)
  {
    forall s | s in Shown(ids)
      ensures OneLine(s)
    {
      assert s in Shown(ids) + ids.ruleFiles;
    }
    forall s | s in ids.ruleFiles
      ensures OneLine(s)
    {
      assert s in Shown(ids) + ids.ruleFiles;
    }
    NothingContinues(Shown(ids));
    NothingContinues(ids.ruleFiles);
  }

  lemma {:induction false} NothingContinues(ss: seq<string>)
    requires forall s :: s in ss ==> OneLine(s)
    ensures Continued(ss) == []
  {
    if ss != [] {
      assert ss[0] in ss && forall s :: s in ss[1..] ==> s in ss;
      SplitNone(ss[0], '\n');
      NothingContinues(ss[1..]);
    }
  }

  /** A rule file whose second line is the marker of a stopped inspector. */
  const SILENCER := "x" + "\n" + MODE + "disabled"

  lemma SilencerContinues()
    ensures Continuation(SILENCER) == [MODE + "disabled"]
  {
    MarkersShape();
    var line := MODE + "disabled";
    assert SILENCER == "x" + ['\n'] + line;
    SplitAt("x", line, '\n');
    assert OneLine(line);
    SplitNone(line, '\n');
  }

  /** It passes for a relative path that stays inside the rules directory. */
  lemma SilencerIsRelative()
    ensures RuleFileOk(SILENCER)
  {
    assert forall i :: 0 <= i < |SILENCER| ==> SILENCER[i] != '.';
  }

  /** With that one rule file, detect or prevent, the engine stops the inspector. */
  lemma SilencerStops(ids: IdsIR, network: Option<NetworkIR>, t: Template)
    requires Fits(t) && ids.ruleFiles == [SILENCER]
    ensures DispatchOf(ModeRead(Some(ids), network, t)) == StopProcess
  {
    ModeIsRead(ids, network, t);
    SilencerContinues();
    assert Continued([SILENCER]) == [MODE + "disabled"] by {
      assert [SILENCER][1..] == [];
    }
    SilencerMarks(Continued(Shown(ids)));
  }

  lemma SilencerMarks(ls: seq<string>)
    ensures LastMarked(ls + [MODE + "disabled"], MODE) == Some("disabled")
  {
    var l := MODE + "disabled";
    assert l[|MODE|..] == "disabled" && l[..|MODE|] == MODE;
    TrimTrimmed("disabled");
  }

  lemma DisabledReadsBack()
    ensures ModeAfter(NO_MODE, ScanLines(Unlines([MODE + "disabled"]))) == Mode("disabled", "0")
    ensures RuleFilesIn(Unlines([MODE + "disabled"])) == []
  {
    var l := MODE + "disabled";
    MarkersShape();
    MarkerStep(NO_MODE, MODE, "disabled");
    ScanUnlines([l]);
    PiecesOfOneLiners([l]);
    assert DropCRs([l]) == [l] && [l][1..] == [];
    PrefixChar(l, RULES, 0);
    RuleFilesSkip([l], []);
    assert [l] + [] == [l];
  }

  // ---- the rule files read back ----

  lemma {:induction false} RuleFilesSkip(a: seq<string>, b: seq<string>)
    requires forall l :: l in a ==> !HasPrefix(l, RULES)
    ensures RuleFilesFrom(false, a + b) == RuleFilesFrom(false, b)
  {
    if a == [] {
      assert a + b == b;
    } else {
      assert a[0] in a && forall l :: l in a[1..] ==> l in a;
      assert (a + b)[1..] == a[1..] + b;
      RuleFilesSkip(a[1..], b);
    }
  }

  function Trims(names: seq<string>): seq<string> {
    seq(|names|, i requires 0 <= i < |names| => Trim(names[i]))
  }

  lemma ItemStep(name: string)
    ensures HasPrefix(DropCR(ITEM + name), ITEM) && !HasPrefix(DropCR(ITEM + name), RULES)
    ensures Trim(DropCR(ITEM + name)[|ITEM|..]) == Trim(name)
  {
    MarkersShape();
    var l := ITEM + name;
    assert ITEM[|ITEM| - 1] == ' ';
    if name == "" {
      assert l == ITEM;
    } else {
      assert l[|l| - 1] == name[|name| - 1];
      assert DropCR(l)[|ITEM|..] == DropCR(name);
      assert DropCR(l)[..|ITEM|] == ITEM;
      TrimDropCR(name);
    }
    PrefixChar(DropCR(l), RULES, 0);
  }

  lemma OneItem(name: string, rest: seq<string>)
    ensures RuleFilesFrom(true, [DropCR(ITEM + name)] + rest) == [Trim(name)] + RuleFilesFrom(true, rest)
  {
    ItemStep(name);
    assert ([DropCR(ITEM + name)] + rest)[1..] == rest;
  }

  lemma {:induction false} ItemsReadBack(names: seq<string>, rest: seq<string>)
    ensures RuleFilesFrom(true, DropCRs(ItemLines(names)) + rest) == Trims(names) + RuleFilesFrom(true, rest)
  {
    hide RuleFilesFrom, HasPrefix, Trim;
    var ls, found := DropCRs(ItemLines(names)), RuleFilesFrom(true, rest);
    if names == [] {
      assert ls + rest == rest && Trims(names) + found == found;
    } else {
      var more := DropCRs(ItemLines(names[1..]));
      ItemsReadBack(names[1..], rest);
      assert ls + rest == [DropCR(ITEM + names[0])] + (more + rest);
      OneItem(names[0], more + rest);
      MoveBrackets([Trim(names[0])], Trims(names[1..]), found, [Trim(names[0])] + (Trims(names[1..]) + found));
      assert Trims(names) == [Trim(names[0])] + Trims(names[1..]);
    }
  }

  /** The list ends at the blank line, and nothing after it starts another. */
  lemma ListEnds(logging: seq<string>)
    requires AllQuiet(logging)
    ensures RuleFilesFrom(true, DropCRs([""] + logging)) == []
  {
    MarkersShape();
    var ls := DropCRs([""] + logging);
    DropCRQuiet(logging);
    assert ls[0] == "" && ls[1..] == DropCRs(logging);
    RuleFilesSkip(ls[1..], []);
    assert ls[1..] + [] == ls[1..];
  }

  /** A line that is neither heading nor item closes whatever list is open. */
  lemma {:induction false} ListCloses(inList: bool, ls: seq<string>, l: string, rest: seq<string>)
    requires !HasPrefix(l, RULES) && !HasPrefix(l, ITEM)
    ensures RuleFilesFrom(inList, ls + ([l] + rest)) == RuleFilesFrom(inList, ls) + RuleFilesFrom(false, rest)
    decreases |ls|
  {
    if ls == [] {
      assert ls + ([l] + rest) == [l] + rest && ([l] + rest)[1..] == rest;
    } else {
      assert (ls + ([l] + rest))[1..] == ls[1..] + ([l] + rest);
      ListCloses(true, ls[1..], l, rest);
      ListCloses(false, ls[1..], l, rest);
    }
  }

  /** Rule files that the continuation lines of interfaces would add to the list. */
  function Extras(ifcs: seq<string>): seq<string> {
    if ifcs == [] then [] else RuleFilesFrom(false, DropCRs(Continuation(ifcs[0]))) + Extras(ifcs[1..])
  }

  /** One capture block: its first line is in no list, and its end closes any that was opened. */
  lemma BlockScanned(ifc: string, id: nat, rest: seq<string>)
    ensures RuleFilesFrom(false, DropCRs(Pieces(CaptureBlock(ifc, id))) + rest)
         == RuleFilesFrom(false, DropCRs(Continuation(ifc))) + RuleFilesFrom(false, rest)
  {
    var line, end, cont := "  - interface: " + ifc, BlockEnd(id), Continuation(ifc);
    assert CaptureBlock(ifc, id) == [line] + end;
    BlockEndQuiet(id);
    PiecesConcat([line], end);
    PiecesOfOne(line);
    PiecesOfOneLiners(end);
    InterfaceFront();
    SplitFront("  - interface: ", ifc);
    var first := "  - interface: " + Split(ifc, '\n')[0];
    FirstIsQuiet(ifc);
    assert Pieces(CaptureBlock(ifc, id)) == [first] + (cont + end);
    hide CaptureBlock, Pieces, Split, RuleFilesFrom, HasPrefix, BlockEnd;
    BlockRest(first, cont, end, rest);
  }

  lemma FirstIsQuiet(ifc: string)
    ensures !HasPrefix(DropCR("  - interface: " + Split(ifc, '\n')[0]), RULES)
  {
    InterfaceFront();
    MarkersShape();
    var l := "  - interface: " + Split(ifc, '\n')[0];
    assert l[0] == ' ' && |l| > 1 && DropCR(l)[0] == ' ';
    PrefixChar(DropCR(l), RULES, 0);
  }

  lemma BlockRest(first: string, cont: seq<string>, end: seq<string>, rest: seq<string>)
    requires !HasPrefix(DropCR(first), RULES) && |end| > 0
    requires AllQuiet(end) && forall l :: l in end ==> !HasPrefix(l, ITEM)
    ensures RuleFilesFrom(false, DropCRs([first] + (cont + end)) + rest)
         == RuleFilesFrom(false, DropCRs(cont)) + RuleFilesFrom(false, rest)
  {
    var close := DropCR(end[0]);
    assert end[0] in end;
    if HasPrefix(close, RULES) {
      DropCRPrefix(end[0], RULES);
    }
    if HasPrefix(close, ITEM) {
      DropCRPrefix(end[0], ITEM);
    }
    DropCRsConcat([first], cont + end);
    DropCRsConcat(cont, end);
    var tail := DropCRs(end[1..]);
    assert DropCRs(end) == [close] + tail;
    assert DropCRs([first] + (cont + end)) + rest == [DropCR(first)] + (DropCRs(cont) + ([close] + (tail + rest)));
    assert forall l :: l in end[1..] ==> l in end;
    DropCRQuiet(end[1..]);
    RuleFilesSkip([DropCR(first)], DropCRs(cont) + ([close] + (tail + rest)));
    ListCloses(false, DropCRs(cont), close, tail + rest);
    RuleFilesSkip(tail, rest);
  }

  lemma NoPieces()
    ensures DropCRs(Pieces([])) == []
  {
  }

  lemma {:induction false} CaptureScanned(ifcs: seq<string>, first: nat, rest: seq<string>)
    ensures RuleFilesFrom(false, DropCRs(Pieces(CaptureLines(ifcs, first))) + rest)
            == Extras(ifcs) + RuleFilesFrom(false, rest)
    decreases |ifcs|
  {
    hide CaptureBlock, Pieces, RuleFilesFrom, Continuation, DropCRs;
    if ifcs == [] {
      NoPieces();
      assert [] + rest == rest;
      assert Extras(ifcs) + RuleFilesFrom(false, rest) == RuleFilesFrom(false, rest);
    } else {
      var block, more := CaptureBlock(ifcs[0], first), CaptureLines(ifcs[1..], first + 1);
      CaptureScanned(ifcs[1..], first + 1, rest);
      PiecesConcat(block, more);
      DropCRsConcat(Pieces(block), Pieces(more));
      var tail := DropCRs(Pieces(more)) + rest;
      BlockScanned(ifcs[0], first, tail);
      assert DropCRs(Pieces(block)) + DropCRs(Pieces(more)) + rest == DropCRs(Pieces(block)) + tail;
      var extra := RuleFilesFrom(false, DropCRs(Continuation(ifcs[0])));
      MoveBrackets(extra, Extras(ifcs[1..]), RuleFilesFrom(false, rest),
                   extra + (Extras(ifcs[1..]) + RuleFilesFrom(false, rest)));
    }
  }

  /** Quiet lines in front of the rest: nothing is found in them. */
  lemma QuietScanned(ls: seq<string>, rest: seq<string>)
    requires AllQuiet(ls)
    ensures RuleFilesFrom(false, DropCRs(Pieces(ls + rest))) == RuleFilesFrom(false, DropCRs(Pieces(rest)))
  {
    PiecesConcat(ls, rest);
    PiecesOfOneLiners(ls);
    DropCRsConcat(ls, Pieces(rest));
    DropCRQuiet(ls);
    RuleFilesSkip(DropCRs(ls), DropCRs(Pieces(rest)));
  }

  lemma InputScanned(ids: IdsIR, t: Template, rest: seq<string>)
    requires Fits(t)
    ensures RuleFilesFrom(false, DropCRs(Pieces(InputLines(ids) + rest)))
         == Extras(Shown(ids)) + RuleFilesFrom(false, DropCRs(Pieces(rest)))
  {
    InputFrameQuiet(t);
    if ids.prevent {
      QuietScanned(InputLines(ids), rest);
      assert [] + RuleFilesFrom(false, DropCRs(Pieces(rest))) == RuleFilesFrom(false, DropCRs(Pieces(rest)));
    } else {
      var capture, tail := CaptureLines(ids.interfaces, 90), [""] + rest;
      assert InputLines(ids) + rest == ["af-packet:"] + (capture + tail);
      QuietScanned(["af-packet:"], capture + tail);
      PiecesConcat(capture, tail);
      DropCRsConcat(Pieces(capture), Pieces(tail));
      CaptureScanned(ids.interfaces, 90, DropCRs(Pieces(tail)));
      QuietScanned([""], rest);
    }
  }

  lemma MarkersScanned(ids: IdsIR, rest: seq<string>)
    ensures RuleFilesFrom(false, DropCRs(Pieces(MarkerLines(ids) + rest)))
            == RuleFilesFrom(false, DropCRs(Pieces(rest)))
  {
    var marks := MarkerLines(ids);
    MarkersReadBack(ids);
    PiecesConcat(marks, rest);
    PiecesOfOneLiners(marks);
    DropCRsConcat(marks, Pieces(rest));
    hide MarkerLines;
    RuleFilesSkip(marks, DropCRs(Pieces(rest)));
  }

  /** What the scan finds: whatever interfaces smuggle in, then what follows the file's own heading. */
  lemma FilesScanned(ids: IdsIR, network: Option<NetworkIR>, t: Template)
    requires Fits(t)
    ensures RuleFilesIn(Artifact(Some(ids), network, t))
         == Extras(Shown(ids)) + RuleFilesFrom(false, DropCRs(Pieces(ListLines(ids.ruleFiles, t))))
  {
    var before, list := BeforeInput(ids, network, t), ListLines(ids.ruleFiles, t);
    var path := ["default-rule-path: " + t.rulesDir];
    LinesAre(ids, network, t);
    BeforeInputQuiet(ids, network, t);
    InputFrameQuiet(t);
    hide BeforeInput, ListLines, InputLines, MarkerLines, LinesOf, RuleFilesFrom, Extras, Pieces;
    ScanUnlines(MarkerLines(ids) + BodyLines(ids, network, t));
    MarkersScanned(ids, BodyLines(ids, network, t));
    QuietScanned(before, InputLines(ids) + (path + list));
    InputScanned(ids, t, path + list);
    QuietScanned(path, list);
  }

  lemma HeadingScanned(names: seq<string>, t: Template)
    requires Fits(t) && forall n :: n in names ==> OneLine(n)
    ensures RuleFilesFrom(false, DropCRs(Pieces(ListLines(names, t)))) == Trims(names)
  {
    var items, tail := ItemLines(names), [""] + t.logging;
    RulesHeading();
    BlankQuiet();
    ItemsOneLine(names);
    PiecesOfOneLiners(ListLines(names, t));
    DropCRsConcat(items, tail);
    var ls := DropCRs([RULES] + (items + tail));
    assert ls[0] == RULES && ls[1..] == DropCRs(items) + DropCRs(tail);
    ItemsReadBack(names, DropCRs(tail));
    ListEnds(t.logging);
    assert Trims(names) + [] == Trims(names);
  }

  lemma ItemsOneLine(names: seq<string>)
    requires forall n :: n in names ==> OneLine(n)
    ensures forall l :: l in ItemLines(names) ==> OneLine(l)
  {
    MarkersShape();
    forall l | l in ItemLines(names)
      ensures OneLine(l)
    {
      var i :| 0 <= i < |names| && ItemLines(names)[i] == l;
      assert names[i] in names;
    }
  }

  /** A rule-file heading with an item on the very next line. */
  predicate StartsList(ls: seq<string>) {
    exists k :: 0 <= k < |ls| - 1 && HasPrefix(ls[k], RULES) && HasPrefix(ls[k + 1], ITEM)
  }

  lemma NotBoth(l: string)
    ensures !(HasPrefix(l, RULES) && HasPrefix(l, ITEM))
  {
    MarkersShape();
    PrefixChar(l, RULES, 0);
    PrefixChar(l, ITEM, 0);
  }

  lemma {:induction false} FoundIff(inList: bool, ls: seq<string>)
    ensures RuleFilesFrom(inList, DropCRs(ls)) == []
            <==> !StartsList(ls) && !(inList && ls != [] && HasPrefix(ls[0], ITEM))
    decreases |ls|
  {
    if ls != [] {
      var l, rest := ls[0], ls[1..];
      MarkersShape();
      MarkersEnd();
      MarkerThroughCR(l, RULES);
      MarkerThroughCR(l, ITEM);
      NotBoth(l);
      assert DropCRs(ls)[1..] == DropCRs(rest);
      StartsListCons(l, rest);
      assert ls == [l] + rest;
      hide HasPrefix, StartsList, DropCR;
      FoundIff(true, rest);
      FoundIff(false, rest);
    }
  }

  lemma StartsListCons(l: string, rest: seq<string>)
    ensures StartsList([l] + rest)
            <==> StartsList(rest) || (HasPrefix(l, RULES) && rest != [] && HasPrefix(rest[0], ITEM))
  {
    hide HasPrefix;
    var ls := [l] + rest;
    if StartsList(rest) {
      var k :| 0 <= k < |rest| - 1 && HasPrefix(rest[k], RULES) && HasPrefix(rest[k + 1], ITEM);
      assert ls[k + 1] == rest[k] && ls[k + 2] == rest[k + 1];
    }
    if StartsList(ls) {
      var k :| 0 <= k < |ls| - 1 && HasPrefix(ls[k], RULES) && HasPrefix(ls[k + 1], ITEM);
      if k > 0 {
        assert rest[k - 1] == ls[k] && rest[k] == ls[k + 1];
      }
    }
    if HasPrefix(l, RULES) && rest != [] && HasPrefix(rest[0], ITEM) {
      assert ls[0] == l && ls[1] == rest[0];
    }
  }

  /** No interface that is printed starts a rule-file list on its further lines. */
  predicate NoListIn(ifcs: seq<string>) {
    forall i :: i in ifcs ==> !StartsList(Continuation(i))
  }

  lemma {:induction false} ExtrasIff(ifcs: seq<string>)
    ensures Extras(ifcs) == [] <==> NoListIn(ifcs)
  {
    if ifcs != [] {
      FoundIff(false, Continuation(ifcs[0]));
      ExtrasIff(ifcs[1..]);
      assert forall i :: i in ifcs <==> i == ifcs[0] || i in ifcs[1..];
    }
  }

  lemma {:induction false} ScannedTidy(inList: bool, ls: seq<string>)
    requires forall l :: l in ls ==> OneLine(l)
    ensures forall f :: f in RuleFilesFrom(inList, ls) ==> Tidy(f)
    decreases |ls|
  {
    if ls != [] {
      assert ls[0] in ls && forall l :: l in ls[1..] ==> l in ls;
      ScannedTidy(true, ls[1..]);
      ScannedTidy(false, ls[1..]);
      if HasPrefix(ls[0], ITEM) {
        TrimFacts(ls[0][|ITEM|..]);
      }
    }
  }

  lemma ScanOneLine(text: string)
    ensures forall l :: l in ScanLines(text) ==> OneLine(l)
  {
    SplitPieces(text, '\n');
    var body := WithoutLastBlank(Split(text, '\n'));
    assert forall p :: p in body ==> p in Split(text, '\n');
    forall l | l in ScanLines(text)
      ensures OneLine(l)
    {
      var i :| 0 <= i < |body| && DropCRs(body)[i] == l;
      assert body[i] in body;
    }
  }

  predicate AllTidy(names: seq<string>) {
    forall f :: f in names ==> Tidy(f)
  }

  lemma TrimsOfTidy(names: seq<string>)
    requires AllTidy(names)
    ensures Trims(names) == names
  {
    forall i | 0 <= i < |names|
      ensures Trim(names[i]) == names[i]
    {
      assert names[i] in names;
      TrimTrimmed(names[i]);
    }
  }

  lemma ScannedAllTidy(text: string)
    ensures AllTidy(RuleFilesIn(text))
  {
    ScanOneLine(text);
    ScannedTidy(false, ScanLines(text));
  }

  /**
    The engine scans back exactly the rule-file list if and only if every name is trimmed and free
    of newlines, and no printed interface starts a list of its own on further lines.
   */
  lemma RuleFilesIff(ids: IdsIR, network: Option<NetworkIR>, t: Template)
    requires Fits(t)
    ensures RuleFilesIn(Artifact(Some(ids), network, t)) == ids.ruleFiles
            <==> AllTidy(ids.ruleFiles) && NoListIn(Shown(ids))
  {
    FilesScanned(ids, network, t);
    ScannedAllTidy(Artifact(Some(ids), network, t));
    ExtrasIff(Shown(ids));
    if AllTidy(ids.ruleFiles) {
      HeadingScanned(ids.ruleFiles, t);
      TrimsOfTidy(ids.ruleFiles);
    }
    hide LinesOf, RuleFilesFrom, ScanLines, Extras, NoListIn, ListLines, Trims, Artifact, RuleFilesIn, Pieces;
    Absorbed(Extras(Shown(ids)), ids.ruleFiles);
  }

  lemma Absorbed(a: seq<string>, b: seq<string>)
    ensures a + b == b <==> a == []
  {
    assert |a + b| == |a| + |b|;
    assert a == [] ==> a + b == b;
  }

  // ---- the capture length ----

  lemma CaptureExact(maxMtu: nat)
    requires maxMtu <= MAX_MTU
    ensures CaptureSize(maxMtu) == maxMtu + ETHERNET_HEADER
  {
  }

  lemma CapturePrinted(network: NetworkIR, t: Template)
    requires network.maxMtu > 0
    ensures ("default-packet-" + "size: " + Dec(CaptureSize(network.maxMtu))) in SizeLines(Some(network), t)
  {
    assert SizeLines(Some(network), t)[1] == "default-packet-" + "size: " + Dec(CaptureSize(network.maxMtu));
  }

  /**
    For a well-formed network section with managed links a capture length is printed: a number that is
    the largest of their MTUs and the 18 bytes of an Ethernet header, so a full frame of every managed
    link fits, and it is no longer than that needs.
   */
  lemma CaptureCoversLinks(zones: seq<Zone>, n: Network, ids: IdsIR, out: NetworkIR, t: Template)
    requires NetworkOk(n) && NetworkOf(zones, Some(n), Some(ids)) == Some(out) && out.links != []
    ensures exists size ::
              && IsNumeral(size) && "default-packet-size: " + size in LinesOf(Some(ids), Some(out), t)
              && (forall l :: l in out.links ==> l.mtu + 18 <= NumberOf(size))
              && exists l :: l in out.links && l.mtu + 18 == NumberOf(size)
  {
    CaptureFits(zones, n, ids, out);
    CapturePrinted(out, t);
    SizeIsPrinted(ids, Some(out), t);
    DecReads(CaptureSize(out.maxMtu));
    SizeKey();
    hide *;
    var size := Dec(CaptureSize(out.maxMtu));
    assert "default-packet-size: " + size in LinesOf(Some(ids), Some(out), t);
  }

  lemma SizeKey()
    ensures "default-packet-" + "size: " == "default-packet-size: "
  {
  }

  lemma CaptureFits(zones: seq<Zone>, n: Network, ids: IdsIR, out: NetworkIR)
    requires NetworkOk(n) && NetworkOf(zones, Some(n), Some(ids)) == Some(out) && out.links != []
    ensures out.maxMtu > 0
    ensures forall l :: l in out.links ==> l.mtu + 18 <= CaptureSize(out.maxMtu)
    ensures exists l :: l in out.links && l.mtu + 18 == CaptureSize(out.maxMtu)
  {
    assert out.links == LinksOf(zones, n) && out.maxMtu == MaxMtu(LinksOf(zones, n));
    MtuValues(zones, n);
    hide LinksOf, NetworkOf, NetworkOk, MaxMtu;
    var l :| l in out.links && l.mtu == out.maxMtu;
    CaptureExact(out.maxMtu);
    assert l.mtu + 18 == CaptureSize(out.maxMtu);
  }

  lemma SizeIsPrinted(ids: IdsIR, network: Option<NetworkIR>, t: Template)
    ensures forall l :: l in SizeLines(network, t) ==> l in LinesOf(Some(ids), network, t)
  {
    LinesAre(ids, network, t);
    LinesUnfold(ids, network, t);
    hide SizeLines, LinesOf, VarLines, MarkerLines, BANNER, InputLines;
  }

  // ---- what the file says, line by line ----

  /** Two lines that follow one another. */
  predicate HasPair(ls: seq<string>, a: string, b: string) {
    exists j :: 0 <= j < |ls| - 1 && ls[j] == a && ls[j + 1] == b
  }

  /** The k-th interface is captured on, in a cluster of its own. */
  ghost predicate Captures(ls: seq<string>, ifc: string, k: nat) {
    exists id: string :: IsNumeral(id) && NumberOf(id) == 90 + k
                         && HasPair(ls, "  - interface: " + ifc, "    cluster-id: " + id)
  }

  /** A line names these networks, between commas, as the inspector's own. */
  ghost predicate NamesHome(ls: seq<string>, nets: seq<Prefix>) {
    exists inner: string :: "    HOME_NET: \"[" + inner + "]\"" in ls && Split(inner, ',') == PrefixTexts(nets)
  }

  lemma {:induction false} CaptureAt(ifcs: seq<string>, first: nat, k: nat)
    requires k < |ifcs|
    ensures HasPair(CaptureLines(ifcs, first), "  - interface: " + ifcs[k], "    cluster-id: " + Dec(first + k))
  {
    hide Dec;
    var block, rest := CaptureBlock(ifcs[0], first), CaptureLines(ifcs[1..], first + 1);
    if k == 0 {
      assert (block + rest)[0] == "  - interface: " + ifcs[0] && (block + rest)[1] == "    cluster-id: " + Dec(first);
    } else {
      CaptureAt(ifcs[1..], first + 1, k - 1);
      PairWithin(block, rest, [], "  - interface: " + ifcs[k], "    cluster-id: " + Dec(first + k));
      assert block + rest + [] == block + rest;
    }
  }

  lemma PairWithin(before: seq<string>, ls: seq<string>, after: seq<string>, a: string, b: string)
    requires HasPair(ls, a, b)
    ensures HasPair(before + ls + after, a, b)
  {
    var j :| 0 <= j < |ls| - 1 && ls[j] == a && ls[j + 1] == b;
    var all := before + ls + after;
    assert all[|before| + j] == a && all[|before| + j + 1] == b;
  }

  lemma HomeIsNamed(ids: IdsIR)
    requires ids.homeNets != []
    ensures NamesHome(VarLines(ids), ids.homeNets)
  {
    var texts := PrefixTexts(ids.homeNets);
    forall t | t in texts
      ensures ',' !in t
    {
      var k :| 0 <= k < |texts| && texts[k] == t;
      PrefixTextWord(ids.homeNets[k]);
    }
    hide PrefixText;
    SplitJoin(texts, ',');
    assert [','] == ",";
    var inner := Join(texts, ",");
    HomeLine(inner);
    assert VarLines(ids)[2] == "    HOME_NET: " + HomeNets(ids) && HomeNets(ids) == "\"[" + inner + "]\"";
  }

  lemma HomeLine(inner: string)
    ensures "    HOME_NET: " + ("\"[" + inner + "]\"") == "    HOME_NET: \"[" + inner + "]\""
  {
  }

  /** Where the parts of the file are. */
  lemma PartsWithin(ids: IdsIR, network: Option<NetworkIR>, t: Template)
    returns (before: seq<string>, after: seq<string>)
    ensures LinesOf(Some(ids), network, t) == before + InputLines(ids) + after
    ensures "default-log-dir: " + t.logDir in before && "default-rule-path: " + t.rulesDir in after
    ensures forall l :: l in VarLines(ids) ==> l in before
  {
    LinesUnfold(ids, network, t);
    assert SizeLines(network, t)[0] == "default-log-dir: " + t.logDir;
    hide LinesOf, VarLines, MarkerLines, SizeLines, ItemLines, InputLines, BANNER, RULES, Dec;
    before := MarkerLines(ids) + [BANNER, ""] + VarLines(ids) + SizeLines(network, t) + t.outputs;
    after := ["default-rule-path: " + t.rulesDir] + [RULES] + ItemLines(ids.ruleFiles) + [""] + t.logging;
    Regroup5(before, InputLines(ids), ["default-rule-path: " + t.rulesDir], [RULES], ItemLines(ids.ruleFiles), [""],
             t.logging);
  }

  lemma Regroup5<T>(a: seq<T>, i: seq<T>, p: seq<T>, b: seq<T>, c: seq<T>, d: seq<T>, e: seq<T>)
    ensures a + i + p + b + c + d + e == a + i + (p + b + c + d + e)
  {
  }

  /**
    The inspector's file: its home networks, its directories, and what it listens to, which is the queue
    in prevent mode and otherwise every one of the interfaces, each under its own cluster number.
   */
  lemma FileSays(ids: IdsIR, network: Option<NetworkIR>, t: Template)
    requires ids.homeNets != []
    ensures var ls := LinesOf(Some(ids), network, t);
            && NamesHome(ls, ids.homeNets)
            && "default-log-dir: " + t.logDir in ls && "default-rule-path: " + t.rulesDir in ls
            && (ids.prevent ==> HasPair(ls, "nfq:", "  mode: accept"))
            && (!ids.prevent ==> forall k :: 0 <= k < |ids.interfaces| ==> Captures(ls, ids.interfaces[k], k))
  {
    HomeIsNamed(ids);
    var before, after := PartsWithin(ids, network, t);
    var ls := LinesOf(Some(ids), network, t);
    if ids.prevent {
      QueueListed(ids);
      PairWithin(before, InputLines(ids), after, "nfq:", "  mode: accept");
    } else {
      forall k | 0 <= k < |ids.interfaces|
        ensures Captures(ls, ids.interfaces[k], k)
      {
        CaptureWithin(ids, before, after, k);
      }
    }
    hide LinesOf, VarLines, InputLines, HasPair, Captures;
  }

  lemma QueueListed(ids: IdsIR)
    requires ids.prevent
    ensures HasPair(InputLines(ids), "nfq:", "  mode: accept")
  {
    assert InputLines(ids)[0] == "nfq:" && InputLines(ids)[1] == "  mode: accept";
  }

  lemma CaptureWithin(ids: IdsIR, before: seq<string>, after: seq<string>, k: nat)
    requires !ids.prevent && k < |ids.interfaces|
    ensures Captures(before + InputLines(ids) + after, ids.interfaces[k], k)
  {
    CaptureListed(ids, k);
    DecReads(90 + k);
    hide InputLines, HasPair, Dec, IsNumeral, NumberOf;
    PairWithin(before, InputLines(ids), after, "  - interface: " + ids.interfaces[k], "    cluster-id: " + Dec(90 + k));
  }

  lemma CaptureListed(ids: IdsIR, k: nat)
    requires !ids.prevent && k < |ids.interfaces|
    ensures HasPair(InputLines(ids), "  - interface: " + ids.interfaces[k], "    cluster-id: " + Dec(90 + k))
  {
    CaptureAt(ids.interfaces, 90, k);
    hide Dec, CaptureLines;
    PairWithin(["af-packet:"], CaptureLines(ids.interfaces, 90), [""], "  - interface: " + ids.interfaces[k],
               "    cluster-id: " + Dec(90 + k));
  }
}

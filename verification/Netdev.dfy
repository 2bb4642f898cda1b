/** Link settings: the directive printer, the parser, and the engine that carries them out. */
module Netdev {
  import opened Basics
  import opened IntermediateForm
  import opened LinkCompiler
  import opened PolicyModel
  import opened Text
  import opened WellFormedness

  // ---- the printer ----

  function LinkLine(l: LinkIR): string {
    Join(["link", l.ifc, "mtu", Dec(l.mtu)], " ")
  }

  function OffloadLine(ifc: string): string {
    Join(["offload", ifc, "off"], " ")
  }

  function LinkLines(ls: seq<LinkIR>): seq<string> {
    seq(|ls|, i requires 0 <= i < |ls| => LinkLine(ls[i]))
  }

  function OffloadLines(ifcs: seq<string>): seq<string> {
    seq(|ifcs|, i requires 0 <= i < |ifcs| => OffloadLine(ifcs[i]))
  }

  function LinesOf(network: Option<NetworkIR>): seq<string> {
    if network.None? then []
    else LinkLines(network.value.links) + OffloadLines(network.value.offloadOff)
  }

  function Artifact(network: Option<NetworkIR>): string {
    BANNER + "\n" + Unlines(LinesOf(network))
  }

  method RenderLinks(links: seq<LinkIR>) returns (ls: seq<string>)
    ensures ls == LinkLines(links)
  {
    ls := [];
    for i := 0 to |links|
      invariant ls == LinkLines(links)[..i]
    {
      ls := ls + [LinkLine(links[i])];
    }
  }

  method RenderOffloads(ifcs: seq<string>) returns (ls: seq<string>)
    ensures ls == OffloadLines(ifcs)
  {
    ls := [];
    for i := 0 to |ifcs|
      invariant ls == OffloadLines(ifcs)[..i]
    {
      ls := ls + [OffloadLine(ifcs[i])];
    }
  }

  method Render(network: Option<NetworkIR>) returns (text: string)
    ensures text == Artifact(network)
  {
    if network.None? {
      return BANNER + "\n" + "";
    }
    var links := RenderLinks(network.value.links);
    var offloads := RenderOffloads(network.value.offloadOff);
    return BANNER + "\n" + Unlines(links + offloads);
  }

  // ---- the parser ----

  datatype Directive = Link(ifc: string, mtu: string) | Offload(ifc: string)

  datatype ParseError = UnknownDirective(line: string)

  type Parsed = Result<seq<Directive>, ParseError>

  function DirectiveOf(line: string): Result<Directive, ParseError> {
    var fields := Fields(line);
    if |fields| == 4 && fields[0] == "link" && fields[2] == "mtu" then Success(Link(fields[1], fields[3]))
    else if |fields| == 3 && fields[0] == "offload" && fields[2] == "off" then Success(Offload(fields[1]))
    else Failure(UnknownDirective(line))
  }

  function IsComment(line: string): bool {
    HasPrefix(line, "#")
  }

  function ParseLines(ls: seq<string>): Parsed {
    if ls == [] then Success([])
    else if IsComment(ls[0]) then ParseLines(ls[1..])
    else
      var d :- DirectiveOf(ls[0]);
      var rest :- ParseLines(ls[1..]);
      Success([d] + rest)
  }

  lemma ParseFrom(ls: seq<string>, i: nat, done: seq<Directive>)
    requires i < |ls|
    ensures IsComment(ls[i]) ==> After(done, ParseLines(ls[i..])) == After(done, ParseLines(ls[i + 1..]))
    ensures !IsComment(ls[i]) && DirectiveOf(ls[i]).Success? ==>
              After(done, ParseLines(ls[i..])) == After(done + [DirectiveOf(ls[i]).value], ParseLines(ls[i + 1..]))
    ensures !IsComment(ls[i]) && DirectiveOf(ls[i]).Failure? ==>
              After(done, ParseLines(ls[i..])) == Failure(DirectiveOf(ls[i]).error)
  {
    assert ls[i..][1..] == ls[i + 1..];
    if !IsComment(ls[i]) && DirectiveOf(ls[i]).Success? && ParseLines(ls[i + 1..]).Success? {
      var d, rest := DirectiveOf(ls[i]).value, ParseLines(ls[i + 1..]).value;
      assert done + ([d] + rest) == (done + [d]) + rest;
    }
  }

  method Parse(config: string) returns (r: Parsed)
    ensures r == ParseLines(Lines(config))
  {
    var ls := Lines(config);
    var out: seq<Directive> := [];
    assert ls[0..] == ls;
    for i := 0 to |ls|
      invariant ParseLines(ls) == After(out, ParseLines(ls[i..]))
    {
      ParseFrom(ls, i, out);
      if IsComment(ls[i]) {
        continue;
      }
      var fields := Fields(ls[i]);
      if |fields| == 4 && fields[0] == "link" && fields[2] == "mtu" {
        out := out + [Link(fields[1], fields[3])];
      } else if |fields| == 3 && fields[0] == "offload" && fields[2] == "off" {
        out := out + [Offload(fields[1])];
      } else {
        return Failure(UnknownDirective(ls[i]));
      }
    }
    return Success(out);
  }

  // ---- which texts the parser takes ----

  /** The line asks for this directive. */
  predicate Asks(line: string, d: Directive) {
    match d
    case Link(ifc, mtu) => Fields(line) == ["link", ifc, "mtu", mtu]
    case Offload(ifc) => Fields(line) == ["offload", ifc, "off"]
  }

  /** Nothing to carry out, or some directive. */
  ghost predicate Understood(line: string) {
    HasPrefix(line, "#") || exists d :: Asks(line, d)
  }

  lemma DirectiveIs(line: string)
    ensures forall d :: DirectiveOf(line) == Success(d) <==> Asks(line, d)
    ensures DirectiveOf(line).Failure? ==> DirectiveOf(line).error == UnknownDirective(line)
    ensures DirectiveOf(line).Success? <==> exists d :: Asks(line, d)
  {
    hide Fields;
    var fields := Fields(line);
    if |fields| == 4 && fields[0] == "link" && fields[2] == "mtu" {
      assert fields == ["link", fields[1], "mtu", fields[3]];
    } else if |fields| == 3 && fields[0] == "offload" && fields[2] == "off" {
      assert fields == ["offload", fields[1], "off"];
    }
    if DirectiveOf(line).Success? {
      assert Asks(line, DirectiveOf(line).value);
    }
  }

  /** The directives are those the lines ask for, in order, comments left out. */
  ghost predicate AskedFor(ls: seq<string>, ds: seq<Directive>)
    decreases |ls|
  {
    if ls == [] then ds == []
    else if HasPrefix(ls[0], "#") then AskedFor(ls[1..], ds)
    else ds != [] && Asks(ls[0], ds[0]) && AskedFor(ls[1..], ds[1..])
  }

  /** A text parses exactly if every line is understood, and fails with the first line that is not. */
  lemma {:induction false} ParsesIff(ls: seq<string>)
    ensures ParseLines(ls).Success? <==> forall i :: 0 <= i < |ls| ==> Understood(ls[i])
    ensures ParseLines(ls).Success? ==> AskedFor(ls, ParseLines(ls).value)
    ensures ParseLines(ls).Failure? ==> exists k :: FirstUnknown(ls, k, ParseLines(ls).error)
  {
    if ls != [] {
      ParsesIff(ls[1..]);
      DirectiveIs(ls[0]);
      hide DirectiveOf, Asks;
      assert Understood(ls[0]) <==> IsComment(ls[0]) || DirectiveOf(ls[0]).Success?;
      assert forall i :: 1 <= i < |ls| ==> ls[i] == ls[1..][i - 1];
      if Understood(ls[0]) && ParseLines(ls[1..]).Failure? {
        var k :| FirstUnknown(ls[1..], k, ParseLines(ls[1..]).error);
        assert FirstUnknown(ls, k + 1, ParseLines(ls).error);
      } else if !Understood(ls[0]) {
        assert FirstUnknown(ls, 0, ParseLines(ls).error);
      }
    }
  }

  ghost predicate FirstUnknown(ls: seq<string>, k: int, e: ParseError) {
    && 0 <= k < |ls| && !Understood(ls[k]) && e == UnknownDirective(ls[k])
    && forall i :: 0 <= i < k ==> Understood(ls[i])
  }

  // ---- round trip ----

  function LinkViews(ls: seq<LinkIR>): seq<Directive> {
    seq(|ls|, i requires 0 <= i < |ls| => Link(ls[i].ifc, Dec(ls[i].mtu)))
  }

  function OffloadViews(ifcs: seq<string>): seq<Directive> {
    seq(|ifcs|, i requires 0 <= i < |ifcs| => Offload(ifcs[i]))
  }

  function Views(network: Option<NetworkIR>): seq<Directive> {
    if network.None? then [] else LinkViews(network.value.links) + OffloadViews(network.value.offloadOff)
  }

  predicate NamesAreWords(network: Option<NetworkIR>) {
    network.Some? ==>
      && (forall l :: l in network.value.links ==> IsWord(l.ifc))
      && (forall i :: i in network.value.offloadOff ==> IsWord(i))
  }

  /** The line is one the parser reads as d. */
  predicate ReadsAs(line: string, d: Directive) {
    Tidy(line) && line != "" && !IsComment(line) && DirectiveOf(line) == Success(d)
  }

  lemma LinkReadsBack(l: LinkIR)
    requires IsWord(l.ifc)
    ensures ReadsAs(LinkLine(l), Link(l.ifc, Dec(l.mtu)))
  {
    var words := ["link", l.ifc, "mtu", Dec(l.mtu)];
    DecDigits(l.mtu);
    JoinTidy(words);
    FieldsOfJoin(words);
    assert LinkLine(l)[0] == words[0][0] == 'l';
  }

  lemma OffloadReadsBack(ifc: string)
    requires IsWord(ifc)
    ensures ReadsAs(OffloadLine(ifc), Offload(ifc))
  {
    var words := ["offload", ifc, "off"];
    JoinTidy(words);
    FieldsOfJoin(words);
    assert OffloadLine(ifc)[0] == words[0][0] == 'o';
  }

  lemma {:induction false} ReadsBack(ls: seq<string>, ds: seq<Directive>)
    requires |ls| == |ds| && forall i :: 0 <= i < |ls| ==> ReadsAs(ls[i], ds[i])
    ensures ParseLines(ls) == Success(ds) && forall l :: l in ls ==> Tidy(l) && l != ""
  {
    if ls != [] {
      assert ReadsAs(ls[0], ds[0]);
      assert forall i :: 0 <= i < |ls| - 1 ==> ReadsAs(ls[1..][i], ds[1..][i]);
      ReadsBack(ls[1..], ds[1..]);
      assert ds == [ds[0]] + ds[1..];
    }
  }

  lemma CommentSkipped(banner: string, ls: seq<string>)
    requires Tidy(banner) && IsComment(banner) && forall l :: l in ls ==> Tidy(l) && l != ""
    ensures ParseLines(Lines(banner + "\n" + Unlines(ls))) == ParseLines(ls)
  {
    assert ([banner] + ls)[1..] == ls;
    LinesOfTidy([banner] + ls);
  }

  lemma WordsReadBack(network: Option<NetworkIR>)
    requires NamesAreWords(network)
    ensures ParseLines(Lines(Artifact(network))) == Success(Views(network))
  {
    var ls, ds := LinesOf(network), Views(network);
    forall i | 0 <= i < |ls|
      ensures ReadsAs(ls[i], ds[i])
    {
      var links := network.value.links;
      if i < |links| {
        LinkReadsBack(links[i]);
      } else {
        OffloadReadsBack(network.value.offloadOff[i - |links|]);
      }
    }
    ReadsBack(ls, ds);
    BannerShape();
    CommentSkipped(BANNER, ls);
  }

  /** The parser only ever returns words. */
  lemma {:induction false} ParsedAreWords(ls: seq<string>)
    ensures ParseLines(ls).Success? ==> forall d :: d in ParseLines(ls).value ==> IsWord(d.ifc)
  {
    if ls != [] {
      FieldsAreWords(ls[0]);
      ParsedAreWords(ls[1..]);
    }
  }

  lemma ViewsAreWords(network: Option<NetworkIR>)
    requires forall d :: d in Views(network) ==> IsWord(d.ifc)
    ensures NamesAreWords(network)
  {
    if network.Some? {
      var ds, links, off := Views(network), network.value.links, network.value.offloadOff;
      forall l | l in links
        ensures IsWord(l.ifc)
      {
        var i :| 0 <= i < |links| && links[i] == l;
        assert ds[i] in ds;
      }
      forall ifc | ifc in off
        ensures IsWord(ifc)
      {
        var i :| 0 <= i < |off| && off[i] == ifc;
        assert ds[|links| + i] in ds;
      }
    }
  }

  /**
    Printer and parser undo each other exactly when every interface name is a word: not empty and
    without white space.
   */
  lemma RoundTripIff(network: Option<NetworkIR>)
    ensures ParseLines(Lines(Artifact(network))) == Success(Views(network)) <==> NamesAreWords(network)
  {
    if NamesAreWords(network) {
      WordsReadBack(network);
    }
    var text := Artifact(network);
    ParsedAreWords(Lines(text));
    if ParseLines(Lines(text)) == Success(Views(network)) {
      ViewsAreWords(network);
    }
  }

  // ---- the engine ----

  function MtusAfter(mtus: map<string, string>, ds: seq<Directive>): map<string, string> {
    if ds == [] then mtus
    else
      var before, d := MtusAfter(mtus, ds[..|ds| - 1]), ds[|ds| - 1];
      if d.Link? then before[d.ifc := d.mtu] else before
  }

  /** The link settings of the node. */
  class Engine {
    var mtus: map<string, string>
    var offloadsOff: set<string>

    constructor (mtus: map<string, string>)
      ensures this.mtus == mtus && offloadsOff == {}
    {
      this.mtus, offloadsOff := mtus, {};
    }

    /** Carry out the directives in order, up to the one that fails, if any. */
    method Apply(config: string, failAt: Option<nat>) returns (ok: bool)
      modifies this
      ensures var parsed := ParseLines(Lines(config));
              && (ok <==> parsed.Success? && !(failAt.Some? && failAt.value < |parsed.value|))
              && (parsed.Failure? ==> mtus == old(mtus) && offloadsOff == old(offloadsOff))
              && (parsed.Success? ==>
                    var done := if ok then parsed.value else parsed.value[..failAt.value];
                    && mtus == MtusAfter(old(mtus), done)
                    && offloadsOff == old(offloadsOff) + (set d | d in done && d.Offload? :: d.ifc))
    {
      hide ParseLines, Lines;
      var parsed := Parse(config);
      if parsed.Failure? {
        return false;
      }
      var ds := parsed.value;
      for i := 0 to |ds|
        invariant failAt.Some? ==> i <= failAt.value
        invariant mtus == MtusAfter(old(mtus), ds[..i])
        invariant offloadsOff == old(offloadsOff) + (set d | d in ds[..i] && d.Offload? :: d.ifc)
      {
        if failAt == Some(i) {
          return false;
        }
        assert ds[..i + 1][..i] == ds[..i] && ds[..i + 1] == ds[..i] + [ds[i]];
        match ds[i] {
          case Link(ifc, mtu) => mtus := mtus[ifc := mtu];
          case Offload(ifc) => offloadsOff := offloadsOff + {ifc};
        }
      }
      assert ds[..|ds|] == ds;
      return true;
    }
  }

  lemma {:induction false} LinkSet(mtus: map<string, string>, ds: seq<Directive>, i: nat)
    requires i < |ds| && ds[i].Link?
    requires forall j :: i < j < |ds| && ds[j].Link? ==> ds[j].ifc != ds[i].ifc
    ensures ds[i].ifc in MtusAfter(mtus, ds) && MtusAfter(mtus, ds)[ds[i].ifc] == ds[i].mtu
  {
    var n := |ds| - 1;
    if i < n {
      assert forall j :: 0 <= j < n ==> ds[..n][j] == ds[j];
      LinkSet(mtus, ds[..n], i);
    }
  }

  lemma {:induction false} OtherLinksKept(mtus: map<string, string>, ds: seq<Directive>, ifc: string)
    requires forall d :: d in ds && d.Link? ==> d.ifc != ifc
    ensures (ifc in MtusAfter(mtus, ds) <==> ifc in mtus) && (ifc in mtus ==> MtusAfter(mtus, ds)[ifc] == mtus[ifc])
  {
    if ds != [] {
      var n := |ds| - 1;
      assert ds[n] in ds && forall d :: d in ds[..n] ==> d in ds;
      OtherLinksKept(mtus, ds[..n], ifc);
    }
  }

  /** The text is the usual way to write the number. */
  predicate Reads(text: string, n: nat) {
    IsNumeral(text) && NumberOf(text) == n
  }

  /**
    Carrying out a rendered section with distinct links sets every managed link to its own MTU, leaves
    every other link as it was, and turns off the offloads of the listed interfaces and no other.
   */
  lemma LinksAsRendered(mtus: map<string, string>, network: NetworkIR)
    requires forall i, j :: 0 <= i < j < |network.links| ==> network.links[i].ifc != network.links[j].ifc
    ensures var ds := Views(Some(network));
            var after := MtusAfter(mtus, ds);
            && (forall l :: l in network.links ==> l.ifc in after && Reads(after[l.ifc], l.mtu))
            && (forall ifc :: (forall l :: l in network.links ==> l.ifc != ifc) ==>
                  (ifc in after <==> ifc in mtus) && (ifc in mtus ==> after[ifc] == mtus[ifc]))
            && (set d | d in ds && d.Offload? :: d.ifc) == Elems(network.offloadOff)
  {
    var ds, links := Views(Some(network)), network.links;
    forall l | l in links
      ensures l.ifc in MtusAfter(mtus, ds) && Reads(MtusAfter(mtus, ds)[l.ifc], l.mtu)
    {
      var i :| 0 <= i < |links| && links[i] == l;
      LinkSet(mtus, ds, i);
      DecReads(l.mtu);
    }
    forall ifc | forall l :: l in links ==> l.ifc != ifc
      ensures (ifc in MtusAfter(mtus, ds) <==> ifc in mtus) && (ifc in mtus ==> MtusAfter(mtus, ds)[ifc] == mtus[ifc])
    {
      forall d | d in ds && d.Link?
        ensures d.ifc != ifc
      {
        var i :| 0 <= i < |ds| && ds[i] == d;
        assert links[i] in links;
      }
      OtherLinksKept(mtus, ds, ifc);
    }
    OffloadsAre(network);
  }

  lemma OffloadsAre(network: NetworkIR)
    ensures (set d | d in Views(Some(network)) && d.Offload? :: d.ifc) == Elems(network.offloadOff)
  {
    var ds, off := Views(Some(network)), network.offloadOff;
    forall ifc | ifc in off
      ensures Offload(ifc) in ds
    {
      var i :| 0 <= i < |off| && off[i] == ifc;
      assert ds[|network.links| + i] == Offload(ifc);
    }
    forall d | d in ds && d.Offload?
      ensures d.ifc in off
    {
      var i :| 0 <= i < |ds| && ds[i] == d;
      assert d.ifc == off[i - |network.links|];
    }
  }

  /** The MTU the policy has for a managed interface: its override, or else the global one. */
  ghost predicate Wants(n: PolicyModel.Network, ifc: string, mtu: nat) {
    if exists m :: m in n.interfaceMtus && m.name == ifc
    then exists m :: m in n.interfaceMtus && m.name == ifc && m.mtu == mtu
    else mtu == n.mtu
  }

  lemma LinksAreWanted(zones: seq<Zone>, n: PolicyModel.Network)
    requires NetworkOk(n)
    ensures forall l :: l in LinksOf(zones, n) ==> Wants(n, l.ifc, l.mtu)
  {
    MtuValues(zones, n);
    hide LinksOf, NetworkOk;
  }

  /**
    From the policy to the links: for a well-formed network section, carrying out what was rendered gives
    every managed interface its override, or else the global MTU, and changes no other link; and that is
    what the engine reads, if and only if the interface names are words.
   */
  lemma PolicyMtusApplied(mtus: map<string, string>, zones: seq<Zone>, n: PolicyModel.Network, ids: Option<IdsIR>,
                          out: NetworkIR, ifc: string)
    requires NetworkOk(n) && NetworkOf(zones, Some(n), ids) == Some(out)
    ensures ParseLines(Lines(Artifact(Some(out)))) == Success(Views(Some(out))) <==> NamesAreWords(Some(out))
    ensures var after := MtusAfter(mtus, Views(Some(out)));
            if GloballyManaged(zones, n, ifc) || HasOverride(n, ifc) then
              && ifc in after
              && IsNumeral(after[ifc]) && NumberOf(after[ifc]) >= 0 && Wants(n, ifc, NumberOf(after[ifc]))
            else (ifc in after <==> ifc in mtus) && (ifc in mtus ==> after[ifc] == mtus[ifc])
  {
    assert out.links == LinksOf(zones, n);
    ManagedOnce(zones, n);
    LinksAreWanted(zones, n);
    RoundTripIff(Some(out));
    hide LinksOf, NetworkOf, NetworkOk, MtusAfter, Views, GloballyManaged, IsNumeral, NumberOf, Artifact, ParseLines,
      Lines, NamesAreWords, Wants, HasOverride;
    LinksAsRendered(mtus, out);
    if l :| l in out.links && l.ifc == ifc {
      assert Reads(MtusAfter(mtus, Views(Some(out)))[ifc], l.mtu);
    }
  }
}

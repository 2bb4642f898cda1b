/** The WireGuard artifact: printed by the renderer, parsed again by the engine. */
module Wireguard {
  import opened Basics
  import opened Net
  import opened IntermediateForm
  import opened Text
  import opened NetText

  datatype Key = Interface | Address | ListenPort | PrivateKeyFile | Peer | Endpoint | AllowedIps | Keepalive

  /** One line of the artifact. */
  datatype Directive = Directive(key: Key, val: string)

  function KeyName(k: Key): string {
    match k
    case Interface => "interface"
    case Address => "address"
    case ListenPort => "listen-port"
    case PrivateKeyFile => "private-key-file"
    case Peer => "peer"
    case Endpoint => "endpoint"
    case AllowedIps => "allowed-ips"
    case Keepalive => "keepalive"
  }

  function KeyNamed(s: string): Option<Key> {
    if s == "interface" then Some(Interface)
    else if s == "address" then Some(Address)
    else if s == "listen-port" then Some(ListenPort)
    else if s == "private-key-file" then Some(PrivateKeyFile)
    else if s == "peer" then Some(Peer)
    else if s == "endpoint" then Some(Endpoint)
    else if s == "allowed-ips" then Some(AllowedIps)
    else if s == "keepalive" then Some(Keepalive)
    else None
  }

  lemma KeyNames(k: Key)
    ensures KeyNamed(KeyName(k)) == Some(k) && IsWord(KeyName(k)) && KeyName(k)[0] != '#' && '\n' !in KeyName(k)
  {
  }

  // ---- the printer ----

  function Indent(k: Key): string {
    if k == Endpoint || k == AllowedIps || k == Keepalive then "  " else ""
  }

  function LineText(d: Directive): string {
    Indent(d.key) + KeyName(d.key) + " " + d.val
  }

  function LineTexts(ds: seq<Directive>): seq<string> {
    if ds == [] then [] else [LineText(ds[0])] + LineTexts(ds[1..])
  }

  function If(c: bool, d: Directive): seq<Directive> {
    if c then [d] else []
  }

  function PeerDirectives(q: WireguardPeerIR): seq<Directive> {
    [Directive(Peer, q.publicKey)]
    + If(q.endpoint != "", Directive(Endpoint, q.endpoint))
    + [Directive(AllowedIps, Join(PrefixTexts(q.allowedIps), ","))]
    + If(q.keepalive != 0, Directive(Keepalive, Dec(q.keepalive)))
  }

  function PeersDirectives(qs: seq<WireguardPeerIR>): seq<Directive> {
    if qs == [] then [] else PeerDirectives(qs[0]) + PeersDirectives(qs[1..])
  }

  function HeadDirectives(w: WireguardIR): seq<Directive> {
    [Directive(Interface, w.name), Directive(Address, PrefixText(w.address))]
    + If(w.listenPort != 0, Directive(ListenPort, Dec(w.listenPort)))
    + [Directive(PrivateKeyFile, w.privateKeyFile)]
  }

  function TunnelDirectives(w: WireguardIR): seq<Directive> {
    HeadDirectives(w) + PeersDirectives(w.peers)
  }

  function TunnelsDirectives(ws: seq<WireguardIR>): seq<Directive> {
    if ws == [] then [] else TunnelDirectives(ws[0]) + TunnelsDirectives(ws[1..])
  }

  function Printed(ds: seq<Directive>): string {
    BANNER + "\n" + Unlines(LineTexts(ds))
  }

  function Artifact(ws: seq<WireguardIR>): string {
    Printed(TunnelsDirectives(ws))
  }

  lemma {:induction false} LineTextsSnoc(ds: seq<Directive>, d: Directive)
    ensures LineTexts(ds + [d]) == LineTexts(ds) + [LineText(d)]
  {
    if ds == [] {
      assert [d][1..] == [];
    } else {
      assert (ds + [d])[1..] == ds[1..] + [d];
      LineTextsSnoc(ds[1..], d);
    }
  }

  lemma PeersFrom(qs: seq<WireguardPeerIR>, k: nat)
    requires k < |qs|
    ensures PeersDirectives(qs[k..]) == PeerDirectives(qs[k]) + PeersDirectives(qs[k + 1..])
  {
    assert qs[k..][1..] == qs[k + 1..];
  }

  lemma TunnelsFrom(ws: seq<WireguardIR>, k: nat)
    requires k < |ws|
    ensures TunnelsDirectives(ws[k..]) == TunnelDirectives(ws[k]) + TunnelsDirectives(ws[k + 1..])
  {
    assert ws[k..][1..] == ws[k + 1..];
  }

  lemma LinesAppend(ds: seq<Directive>, d: Directive)
    ensures Unlines(LineTexts(ds + [d])) == Unlines(LineTexts(ds)) + LineText(d) + "\n"
  {
    LineTextsSnoc(ds, d);
    UnlinesSnoc(LineTexts(ds), LineText(d));
  }

  method PrintPrefixes(ps: seq<Prefix>) returns (texts: seq<string>)
    ensures texts == PrefixTexts(ps)
  {
    texts := [];
    for i := 0 to |ps|
      invariant texts == PrefixTexts(ps)[..i]
    {
      texts := texts + [PrefixText(ps[i])];
    }
  }

  /** The builder: the text written so far, after its first line. */
  class Builder {
    var text: string
    const head: string
    ghost var written: seq<Directive>

    ghost predicate Valid()
      reads this
    {
      text == head + Unlines(LineTexts(written))
    }

    constructor (first: string)
      ensures Valid() && written == [] && head == first
    {
      head, text, written := first, first, [];
    }

    /** One line and a newline. */
    method Write(key: Key, val: string)
      requires Valid()
      modifies this
      ensures Valid() && written == old(written) + [Directive(key, val)]
    {
      ghost var d := Directive(key, val);
      LinesAppend(written, d);
      ghost var before := Unlines(LineTexts(written));
      MoveBrackets(before, LineText(d), "\n", before + (LineText(d) + "\n"));
      MoveBrackets(head, before, LineText(d) + "\n", head + (before + (LineText(d) + "\n")));
      MoveBrackets(head + before, LineText(d), "\n", (head + before) + (LineText(d) + "\n"));
      text := text + LineText(Directive(key, val)) + "\n";
      written := written + [d];
    }

    method WritePeer(q: WireguardPeerIR)
      requires Valid()
      modifies this
      ensures Valid() && written == old(written) + PeerDirectives(q)
    {
      hide Dec, Join, PrefixTexts, LineTexts, Unlines;
      Write(Peer, q.publicKey);
      if q.endpoint != "" {
        Write(Endpoint, q.endpoint);
      }
      var ips := PrintPrefixes(q.allowedIps);
      Write(AllowedIps, Join(ips, ","));
      if q.keepalive != 0 {
        Write(Keepalive, Dec(q.keepalive));
      }
    }

    method WriteHead(w: WireguardIR)
      requires Valid()
      modifies this
      ensures Valid() && written == old(written) + HeadDirectives(w)
    {
      Write(Interface, w.name);
      Write(Address, PrefixText(w.address));
      if w.listenPort != 0 {
        Write(ListenPort, Dec(w.listenPort));
      }
      Write(PrivateKeyFile, w.privateKeyFile);
    }

    method WritePeers(qs: seq<WireguardPeerIR>)
      requires Valid()
      modifies this
      ensures Valid() && written == old(written) + PeersDirectives(qs)
    {
      ghost var start, all := written, PeersDirectives(qs);
      assert qs[0..] == qs;
      for k := 0 to |qs|
        invariant Valid()
        invariant written + PeersDirectives(qs[k..]) == start + all
      {
        PeersFrom(qs, k);
        MoveBrackets(written, PeerDirectives(qs[k]), PeersDirectives(qs[k + 1..]), start + all);
        WritePeer(qs[k]);
      }
      assert qs[|qs|..] == [] && written + [] == written;
    }

    method WriteTunnel(w: WireguardIR)
      requires Valid()
      modifies this
      ensures Valid() && written == old(written) + TunnelDirectives(w)
    {
      WriteHead(w);
      WritePeers(w.peers);
      MoveBrackets(old(written), HeadDirectives(w), PeersDirectives(w.peers), old(written) + TunnelDirectives(w));
    }

    method WriteTunnels(ws: seq<WireguardIR>)
      requires Valid() && written == []
      modifies this
      ensures Valid() && written == TunnelsDirectives(ws)
    {
      ghost var all := TunnelsDirectives(ws);
      assert ws[0..] == ws && [] + all == all;
      for k := 0 to |ws|
        invariant Valid()
        invariant written + TunnelsDirectives(ws[k..]) == all
      {
        TunnelsFrom(ws, k);
        MoveBrackets(written, TunnelDirectives(ws[k]), TunnelsDirectives(ws[k + 1..]), all);
        WriteTunnel(ws[k]);
      }
      assert ws[|ws|..] == [] && written + [] == written;
    }
  }

  method Render(ws: seq<WireguardIR>) returns (text: string)
    ensures text == Artifact(ws)
  {
    var b := new Builder(BANNER + "\n");
    b.WriteTunnels(ws);
    return b.text;
  }

  // ---- the parser ----

  datatype WgPeer = WgPeer(publicKey: string, endpoint: string, allowedIps: string, keepalive: string)

  datatype WgIface = WgIface(name: string, address: string, listenPort: string, privateKeyFile: string,
                             peers: seq<WgPeer>)

  datatype ParseError = UnknownDirective | BeforeInterface | BeforePeer

  type Parsed = Result<seq<WgIface>, ParseError>

  function SetPeer(q: WgPeer, key: Key, val: string): WgPeer {
    match key
    case Endpoint => q.(endpoint := val)
    case AllowedIps => q.(allowedIps := val)
    case Keepalive => q.(keepalive := val)
    case _ => q
  }

  function SetField(cur: WgIface, key: Key, val: string): Result<WgIface, ParseError> {
    match key
    case Address => Success(cur.(address := val))
    case ListenPort => Success(cur.(listenPort := val))
    case PrivateKeyFile => Success(cur.(privateKeyFile := val))
    case Peer => Success(cur.(peers := cur.peers + [WgPeer(val, "", "", "")]))
    case _ =>
      if cur.peers == [] then Failure(BeforePeer)
      else Success(cur.(peers := cur.peers[|cur.peers| - 1 := SetPeer(cur.peers[|cur.peers| - 1], key, val)]))
  }

  /** The effect of one directive on what has been parsed; the last interface is the current one. */
  function Apply(out: seq<WgIface>, key: Key, val: string): Parsed {
    if key == Interface then Success(out + [WgIface(val, "", "", "", [])])
    else if out == [] then Failure(BeforeInterface)
    else
      var cur :- SetField(out[|out| - 1], key, val);
      Success(out[|out| - 1 := cur])
  }

  function Step(out: seq<WgIface>, line: string): Parsed {
    if HasPrefix(line, "#") then Success(out)
    else
      match KeyNamed(Cut(line, ' ').0)
      case None => Failure(UnknownDirective)
      case Some(key) => Apply(out, key, Trim(Cut(line, ' ').1))
  }

  function Fold(out: seq<WgIface>, ls: seq<string>): Parsed
    decreases |ls|
  {
    if ls == [] then Success(out)
    else
      var next :- Step(out, ls[0]);
      Fold(next, ls[1..])
  }

  method Parse(config: string) returns (r: Parsed)
    ensures r == Fold([], Lines(config))
  {
    hide Lines, Trim, Cut;
    var out: seq<WgIface> := [];
    var ls := Lines(config);
    for i := 0 to |ls|
      invariant Fold([], ls) == Fold(out, ls[i..])
    {
      assert ls[i..][1..] == ls[i + 1..];
      if HasPrefix(ls[i], "#") {
        continue;
      }
      var (name, rest, _) := Cut(ls[i], ' ');
      var val := Trim(rest);
      var key := KeyNamed(name);
      if key == None {
        return Failure(UnknownDirective);
      }
      if key == Some(Interface) {
        out := out + [WgIface(val, "", "", "", [])];
        continue;
      }
      if |out| == 0 {
        return Failure(BeforeInterface);
      }
      var cur := out[|out| - 1];
      if key == Some(Address) {
        cur := cur.(address := val);
      } else if key == Some(ListenPort) {
        cur := cur.(listenPort := val);
      } else if key == Some(PrivateKeyFile) {
        cur := cur.(privateKeyFile := val);
      } else if key == Some(Peer) {
        cur := cur.(peers := cur.peers + [WgPeer(val, "", "", "")]);
      } else {
        if |cur.peers| == 0 {
          return Failure(BeforePeer);
        }
        var peer := cur.peers[|cur.peers| - 1];
        if key == Some(Endpoint) {
          peer := peer.(endpoint := val);
        } else if key == Some(AllowedIps) {
          peer := peer.(allowedIps := val);
        } else {
          peer := peer.(keepalive := val);
        }
        cur := cur.(peers := cur.peers[|cur.peers| - 1 := peer]);
      }
      out := out[|out| - 1 := cur];
    }
    return Success(out);
  }

  // ---- which texts the parser takes ----

  /** What is wrong with the lines, read after an interface line or not (`open`), and after a peer line of it or not. */
  function Complaint(ls: seq<string>, open: bool, peer: bool): Option<ParseError>
    decreases |ls|
  {
    if ls == [] then None
    else if HasPrefix(ls[0], "#") then Complaint(ls[1..], open, peer)
    else
      var word := Cut(ls[0], ' ').0;
      if word == "interface" then Complaint(ls[1..], true, false)
      else if word in ["endpoint", "allowed-ips", "keepalive"] then
        if !open then Some(BeforeInterface) else if !peer then Some(BeforePeer) else Complaint(ls[1..], true, true)
      else if word in ["address", "listen-port", "private-key-file", "peer"] then
        if open then Complaint(ls[1..], true, peer || word == "peer") else Some(BeforeInterface)
      else Some(UnknownDirective)
  }

  predicate InPeer(out: seq<WgIface>) {
    out != [] && out[|out| - 1].peers != []
  }

  /** One line that is no comment: what it is refused for, or what it leaves open. */
  lemma StepIs(out: seq<WgIface>, line: string)
    requires !HasPrefix(line, "#")
    ensures var word, r := Cut(line, ' ').0, Step(out, line);
            if word == "interface" then r.Success? && r.value != [] && !InPeer(r.value)
            else if word in ["endpoint", "allowed-ips", "keepalive"] then
              if out == [] then r == Failure(BeforeInterface)
              else if !InPeer(out) then r == Failure(BeforePeer)
              else r.Success? && InPeer(r.value)
            else if word in ["address", "listen-port", "private-key-file", "peer"] then
              if out == [] then r == Failure(BeforeInterface)
              else r.Success? && r.value != [] && (InPeer(r.value) <==> InPeer(out) || word == "peer")
            else r == Failure(UnknownDirective)
  {
    hide Cut, Trim;
  }

  /**
    Whatever the values, a text parses exactly if there is nothing to complain of, and fails with the
    first complaint.
   */
  lemma {:induction false} ParsesIff(out: seq<WgIface>, ls: seq<string>)
    ensures match Complaint(ls, out != [], InPeer(out))
            case None => Fold(out, ls).Success?
            case Some(e) => Fold(out, ls) == Failure(e)
    decreases |ls|
  {
    if ls != [] {
      if HasPrefix(ls[0], "#") {
        ParsesIff(out, ls[1..]);
      } else {
        StepIs(out, ls[0]);
        if Step(out, ls[0]).Success? {
          ParsesIff(Step(out, ls[0]).value, ls[1..]);
        }
      }
    }
    hide Cut, Step, InPeer, HasPrefix;
  }

  // ---- what a printed interface should read back as ----

  function NumText(n: nat): string {
    if n == 0 then "" else Dec(n)
  }

  function PeerView(q: WireguardPeerIR): WgPeer {
    WgPeer(q.publicKey, q.endpoint, Join(PrefixTexts(q.allowedIps), ","), NumText(q.keepalive))
  }

  function PeerViews(qs: seq<WireguardPeerIR>): seq<WgPeer> {
    seq(|qs|, i requires 0 <= i < |qs| => PeerView(qs[i]))
  }

  function View(w: WireguardIR): WgIface {
    WgIface(w.name, PrefixText(w.address), NumText(w.listenPort), w.privateKeyFile, PeerViews(w.peers))
  }

  function Views(ws: seq<WireguardIR>): seq<WgIface> {
    seq(|ws|, i requires 0 <= i < |ws| => View(ws[i]))
  }

  predicate PeerTidy(q: WireguardPeerIR) {
    Tidy(q.publicKey) && Tidy(q.endpoint)
  }

  /** Every string the operator supplied is trimmed and stays on one line. */
  predicate TunnelTidy(w: WireguardIR) {
    Tidy(w.name) && Tidy(w.privateKeyFile) && forall q :: q in w.peers ==> PeerTidy(q)
  }

  predicate AllTidy(ws: seq<WireguardIR>) {
    forall w :: w in ws ==> TunnelTidy(w)
  }

  // ---- from text to directives ----

  /** The parser run on directives that are already taken apart. */
  function FoldDirectives(out: seq<WgIface>, ds: seq<Directive>): Parsed
    decreases |ds|
  {
    if ds == [] then Success(out)
    else
      var next :- Apply(out, ds[0].key, ds[0].val);
      FoldDirectives(next, ds[1..])
  }

  predicate TidyValues(ds: seq<Directive>) {
    forall d :: d in ds ==> Tidy(d.val)
  }

  lemma LineShape(d: Directive)
    requires Tidy(d.val)
    ensures '\n' !in LineText(d)
    ensures var line := Trim(LineText(d));
            && line != "" && line[0] != '#'
            && KeyNamed(Cut(line, ' ').0) == Some(d.key) && Trim(Cut(line, ' ').1) == d.val
  {
    KeyNames(d.key);
    KeyValue(Indent(d.key), KeyName(d.key), d.val);
    var l := LineText(d);
    assert forall c :: c in l ==> c in Indent(d.key) || c in KeyName(d.key) || c == ' ' || c in d.val;
  }

  lemma StepReadBack(out: seq<WgIface>, d: Directive)
    requires Tidy(d.val)
    ensures Step(out, Trim(LineText(d))) == Apply(out, d.key, d.val)
  {
    LineShape(d);
    assert !HasPrefix(Trim(LineText(d)), "#");
  }

  lemma {:induction false} NoNewlines(ds: seq<Directive>)
    requires TidyValues(ds)
    ensures forall l :: l in LineTexts(ds) ==> '\n' !in l
  {
    if ds != [] {
      assert ds[0] in ds && forall d :: d in ds[1..] ==> d in ds;
      LineShape(ds[0]);
      NoNewlines(ds[1..]);
    }
  }

  lemma NonBlankFirst(l: string, ls: seq<string>)
    requires Trim(l) != ""
    ensures NonBlank([l] + ls) == [Trim(l)] + NonBlank(ls)
  {
    assert ([l] + ls)[1..] == ls;
  }

  lemma FoldFirst(out: seq<WgIface>, l: string, ls: seq<string>)
    ensures Fold(out, [l] + ls)
         == if Step(out, l).Success? then Fold(Step(out, l).value, ls) else Failure(Step(out, l).error)
  {
    assert ([l] + ls)[1..] == ls;
  }

  lemma {:induction false} TextReadBack(out: seq<WgIface>, ds: seq<Directive>)
    requires TidyValues(ds)
    ensures Fold(out, NonBlank(LineTexts(ds))) == FoldDirectives(out, ds)
    decreases |ds|
  {
    if ds != [] {
      var d := ds[0];
      assert d in ds && forall x :: x in ds[1..] ==> x in ds;
      LineShape(d);
      StepReadBack(out, d);
      NonBlankFirst(LineText(d), LineTexts(ds[1..]));
      FoldFirst(out, Trim(LineText(d)), NonBlank(LineTexts(ds[1..])));
      if Apply(out, d.key, d.val).Success? {
        TextReadBack(Apply(out, d.key, d.val).value, ds[1..]);
      }
    }
  }

  /** The comment line at the top is skipped. */
  lemma CommentSkipped(banner: string, ls: seq<string>)
    requires Tidy(banner) && HasPrefix(banner, "#") && forall l :: l in ls ==> '\n' !in l
    ensures Fold([], Lines(banner + "\n" + Unlines(ls))) == Fold([], NonBlank(ls))
  {
    assert ([banner] + ls)[1..] == ls;
    LinesOfUnlines([banner] + ls);
    TrimTrimmed(banner);
    NonBlankFirst(banner, ls);
    FoldFirst([], banner, NonBlank(ls));
  }

  lemma PrintedReadBack(ds: seq<Directive>)
    requires TidyValues(ds)
    ensures Fold([], Lines(Printed(ds))) == FoldDirectives([], ds)
  {
    BannerShape();
    NoNewlines(ds);
    CommentSkipped(BANNER, LineTexts(ds));
    TextReadBack([], ds);
  }

  // ---- from directives to interfaces ----

  lemma FoldCons(out: seq<WgIface>, d: Directive, rest: seq<Directive>)
    ensures Apply(out, d.key, d.val).Success? ==>
              FoldDirectives(out, [d] + rest) == FoldDirectives(Apply(out, d.key, d.val).value, rest)
  {
    assert ([d] + rest)[1..] == rest;
  }

  /** A directive for the current interface changes only that interface. */
  lemma ApplyCurrent(done: seq<WgIface>, cur: WgIface, d: Directive, rest: seq<Directive>)
    requires d.key != Interface && SetField(cur, d.key, d.val).Success?
    ensures FoldDirectives(done + [cur], [d] + rest)
         == FoldDirectives(done + [SetField(cur, d.key, d.val).value], rest)
  {
    var cur' := SetField(cur, d.key, d.val).value;
    assert (done + [cur])[|done + [cur]| - 1] == cur;
    assert (done + [cur])[|done + [cur]| - 1 := cur'] == done + [cur'];
    FoldCons(done + [cur], d, rest);
  }

  /** The same, for a directive that may be left out. */
  lemma ApplyOptional(done: seq<WgIface>, cur: WgIface, c: bool, d: Directive, rest: seq<Directive>)
    requires d.key != Interface && SetField(cur, d.key, d.val).Success?
    ensures FoldDirectives(done + [cur], If(c, d) + rest)
         == FoldDirectives(done + [if c then SetField(cur, d.key, d.val).value else cur], rest)
  {
    if c {
      ApplyCurrent(done, cur, d, rest);
    } else {
      assert If(c, d) + rest == rest;
    }
  }

  lemma SetLastPeer(cur: WgIface, ps: seq<WgPeer>, q: WgPeer, key: Key, val: string)
    requires cur.peers == ps + [q] && (key == Endpoint || key == AllowedIps || key == Keepalive)
    ensures SetField(cur, key, val) == Success(cur.(peers := ps + [SetPeer(q, key, val)]))
  {
    assert (ps + [q])[|ps| := SetPeer(q, key, val)] == ps + [SetPeer(q, key, val)];
  }

  /** A peer's directives after the first, for a peer that has its key and nothing else yet. */
  lemma PeerRest(done: seq<WgIface>, cur: WgIface, ps: seq<WgPeer>, q: WireguardPeerIR, rest: seq<Directive>)
    requires cur.peers == ps + [WgPeer(q.publicKey, "", "", "")]
    ensures var more := If(q.endpoint != "", Directive(Endpoint, q.endpoint))
                        + ([Directive(AllowedIps, Join(PrefixTexts(q.allowedIps), ","))]
                           + (If(q.keepalive != 0, Directive(Keepalive, Dec(q.keepalive))) + rest));
            FoldDirectives(done + [cur], more) == FoldDirectives(done + [cur.(peers := ps + [PeerView(q)])], rest)
  {
    var allowed := Join(PrefixTexts(q.allowedIps), ",");
    var d2, d3 := Directive(Endpoint, q.endpoint), Directive(AllowedIps, allowed);
    var d4 := Directive(Keepalive, Dec(q.keepalive));
    var o4 := If(q.keepalive != 0, d4);
    var p1 := WgPeer(q.publicKey, "", "", "");
    var p2 := p1.(endpoint := q.endpoint);
    var p3 := p2.(allowedIps := allowed);
    var c2, c3 := cur.(peers := ps + [p2]), cur.(peers := ps + [p3]);
    SetLastPeer(cur, ps, p1, Endpoint, q.endpoint);
    SetLastPeer(c2, ps, p2, AllowedIps, allowed);
    SetLastPeer(c3, ps, p3, Keepalive, Dec(q.keepalive));
    hide FoldDirectives, SetField, Dec, Join, PrefixTexts, If;
    ApplyOptional(done, cur, q.endpoint != "", d2, [d3] + (o4 + rest));
    ApplyCurrent(done, c2, d3, o4 + rest);
    ApplyOptional(done, c3, q.keepalive != 0, d4, rest);
    assert q.endpoint == "" ==> cur == c2;
  }

  lemma PeerReadBack(done: seq<WgIface>, cur: WgIface, q: WireguardPeerIR, rest: seq<Directive>)
    ensures FoldDirectives(done + [cur], PeerDirectives(q) + rest)
         == FoldDirectives(done + [cur.(peers := cur.peers + [PeerView(q)])], rest)
  {
    var d1 := Directive(Peer, q.publicKey);
    var o2 := If(q.endpoint != "", Directive(Endpoint, q.endpoint));
    var d3 := Directive(AllowedIps, Join(PrefixTexts(q.allowedIps), ","));
    var o4 := If(q.keepalive != 0, Directive(Keepalive, Dec(q.keepalive)));
    var c1 := cur.(peers := cur.peers + [WgPeer(q.publicKey, "", "", "")]);
    assert SetField(cur, Peer, q.publicKey) == Success(c1);
    PeerParts(d1, o2, d3, o4, rest);
    assert PeerDirectives(q) == [d1] + o2 + [d3] + o4;
    hide FoldDirectives, Dec, Join, PrefixTexts, If, PeerDirectives, PeerView, SetField;
    ApplyCurrent(done, cur, d1, o2 + ([d3] + (o4 + rest)));
    PeerRest(done, c1, cur.peers, q, rest);
  }

  lemma PeerParts<T>(a: T, b: seq<T>, c: T, d: seq<T>, rest: seq<T>)
    ensures [a] + b + [c] + d + rest == [a] + (b + ([c] + (d + rest)))
  {
  }

  lemma {:induction false} PeersReadBack(done: seq<WgIface>, cur: WgIface, qs: seq<WireguardPeerIR>,
                                         rest: seq<Directive>)
    ensures FoldDirectives(done + [cur], PeersDirectives(qs) + rest)
         == FoldDirectives(done + [cur.(peers := cur.peers + PeerViews(qs))], rest)
    decreases |qs|
  {
    if qs == [] {
      assert PeersDirectives(qs) + rest == rest && cur.peers + PeerViews(qs) == cur.peers;
    } else {
      var more := PeersDirectives(qs[1..]) + rest;
      assert PeersDirectives(qs) + rest == PeerDirectives(qs[0]) + more;
      PeerReadBack(done, cur, qs[0], more);
      var cur' := cur.(peers := cur.peers + [PeerView(qs[0])]);
      PeersReadBack(done, cur', qs[1..], rest);
      assert cur.peers + [PeerView(qs[0])] + PeerViews(qs[1..]) == cur.peers + PeerViews(qs);
    }
  }

  lemma HeadReadBack(done: seq<WgIface>, w: WireguardIR, rest: seq<Directive>)
    ensures FoldDirectives(done, HeadDirectives(w) + rest) == FoldDirectives(done + [View(w).(peers := [])], rest)
  {
    var d1, d2 := Directive(Interface, w.name), Directive(Address, PrefixText(w.address));
    var d3, d4 := Directive(ListenPort, Dec(w.listenPort)), Directive(PrivateKeyFile, w.privateKeyFile);
    var o3 := If(w.listenPort != 0, d3);
    assert HeadDirectives(w) + rest == [d1] + ([d2] + (o3 + ([d4] + rest)));
    FoldCons(done, d1, [d2] + (o3 + ([d4] + rest)));
    var c1 := WgIface(w.name, "", "", "", []);
    var c2 := c1.(address := PrefixText(w.address));
    var c3 := c2.(listenPort := NumText(w.listenPort));
    ApplyCurrent(done, c1, d2, o3 + ([d4] + rest));
    ApplyOptional(done, c2, w.listenPort != 0, d3, [d4] + rest);
    ApplyCurrent(done, c3, d4, rest);
  }

  lemma TunnelReadBack(done: seq<WgIface>, w: WireguardIR, rest: seq<Directive>)
    ensures FoldDirectives(done, TunnelDirectives(w) + rest) == FoldDirectives(done + [View(w)], rest)
  {
    var head, peers := HeadDirectives(w), PeersDirectives(w.peers);
    assert TunnelDirectives(w) + rest == head + (peers + rest);
    HeadReadBack(done, w, peers + rest);
    var bare := View(w).(peers := []);
    PeersReadBack(done, bare, w.peers, rest);
    assert [] + PeerViews(w.peers) == PeerViews(w.peers);
    assert bare.(peers := bare.peers + PeerViews(w.peers)) == View(w);
  }

  lemma {:induction false} TunnelsReadBack(done: seq<WgIface>, ws: seq<WireguardIR>)
    ensures FoldDirectives(done, TunnelsDirectives(ws)) == Success(done + Views(ws))
    decreases |ws|
  {
    if ws == [] {
      assert done + Views(ws) == done;
    } else {
      TunnelReadBack(done, ws[0], TunnelsDirectives(ws[1..]));
      TunnelsReadBack(done + [View(ws[0])], ws[1..]);
      assert Views(ws) == [View(ws[0])] + Views(ws[1..]);
      MoveBrackets(done, [View(ws[0])], Views(ws[1..]), done + Views(ws));
    }
  }

  // ---- the values printed are tidy ----

  lemma AllowedTidy(q: WireguardPeerIR)
    ensures Tidy(Join(PrefixTexts(q.allowedIps), ","))
  {
    var ts := PrefixTexts(q.allowedIps);
    forall t | t in ts
      ensures NoSpace(t)
    {
      var i :| 0 <= i < |ts| && ts[i] == t;
      PrefixTextWord(q.allowedIps[i]);
    }
    JoinNoSpace(ts, ",");
    NoSpaceTidy(Join(ts, ","));
  }

  lemma DecTidy(n: nat)
    ensures Tidy(Dec(n))
  {
    DecDigits(n);
    NoSpaceTidy(Dec(n));
  }

  lemma {:induction false} PeersTidy(qs: seq<WireguardPeerIR>)
    requires forall q :: q in qs ==> PeerTidy(q)
    ensures TidyValues(PeersDirectives(qs))
  {
    if qs != [] {
      assert qs[0] in qs && forall q :: q in qs[1..] ==> q in qs;
      PeersTidy(qs[1..]);
      AllowedTidy(qs[0]);
      DecTidy(qs[0].keepalive);
    }
  }

  lemma HeadTidy(w: WireguardIR)
    requires TunnelTidy(w)
    ensures TidyValues(HeadDirectives(w))
  {
    PrefixTextWord(w.address);
    NoSpaceTidy(PrefixText(w.address));
    DecTidy(w.listenPort);
  }

  lemma {:induction false} TunnelsTidy(ws: seq<WireguardIR>)
    requires AllTidy(ws)
    ensures TidyValues(TunnelsDirectives(ws))
  {
    if ws != [] {
      assert ws[0] in ws && forall w :: w in ws[1..] ==> w in ws;
      TunnelsTidy(ws[1..]);
      HeadTidy(ws[0]);
      PeersTidy(ws[0].peers);
    }
  }

  // ---- the parser only ever returns tidy strings ----

  predicate PeerResultTidy(q: WgPeer) {
    Tidy(q.publicKey) && Tidy(q.endpoint)
  }

  predicate ResultTidy(i: WgIface) {
    Tidy(i.name) && Tidy(i.privateKeyFile) && forall q :: q in i.peers ==> PeerResultTidy(q)
  }

  lemma ApplyTidy(out: seq<WgIface>, key: Key, val: string)
    requires Tidy(val) && forall i :: i in out ==> ResultTidy(i)
    ensures Apply(out, key, val).Success? ==> forall i :: i in Apply(out, key, val).value ==> ResultTidy(i)
  {
    if key != Interface && out != [] {
      assert out[|out| - 1] in out;
      var ps := out[|out| - 1].peers;
      if ps != [] {
        assert ps[|ps| - 1] in ps;
      }
    }
  }

  lemma {:induction false} FoldTidy(out: seq<WgIface>, ls: seq<string>)
    requires forall i :: i in out ==> ResultTidy(i)
    requires forall l :: l in ls ==> '\n' !in l
    ensures Fold(out, ls).Success? ==> forall i :: i in Fold(out, ls).value ==> ResultTidy(i)
    decreases |ls|
  {
    if ls != [] && Step(out, ls[0]).Success? {
      assert ls[0] in ls && forall l :: l in ls[1..] ==> l in ls;
      var val := Cut(ls[0], ' ').1;
      CutFacts(ls[0], ' ');
      TrimFacts(val);
      if !HasPrefix(ls[0], "#") {
        ApplyTidy(out, KeyNamed(Cut(ls[0], ' ').0).value, Trim(val));
      }
      FoldTidy(Step(out, ls[0]).value, ls[1..]);
    }
  }

  lemma TidyReadsBack(ws: seq<WireguardIR>)
    requires AllTidy(ws)
    ensures Fold([], Lines(Artifact(ws))) == Success(Views(ws))
  {
    TunnelsTidy(ws);
    PrintedReadBack(TunnelsDirectives(ws));
    TunnelsReadBack([], ws);
    assert [] + Views(ws) == Views(ws);
  }

  lemma ReadTidy(text: string)
    ensures Fold([], Lines(text)).Success? ==> forall i :: i in Fold([], Lines(text)).value ==> ResultTidy(i)
  {
    LinesTidy(text);
    FoldTidy([], Lines(text));
  }

  lemma ViewTidy(w: WireguardIR)
    requires ResultTidy(View(w))
    ensures TunnelTidy(w)
  {
    forall q | q in w.peers
      ensures PeerTidy(q)
    {
      var k :| 0 <= k < |w.peers| && w.peers[k] == q;
      assert PeerViews(w.peers)[k] in View(w).peers;
    }
  }

  lemma ViewsTidy(ws: seq<WireguardIR>)
    requires forall v :: v in Views(ws) ==> ResultTidy(v)
    ensures AllTidy(ws)
  {
    forall w | w in ws
      ensures TunnelTidy(w)
    {
      var i :| 0 <= i < |ws| && ws[i] == w;
      assert Views(ws)[i] in Views(ws);
      ViewTidy(w);
    }
  }

  /**
    Printer and parser undo each other, with exactly the inputs for which they do: parsing the
    printed artifact succeeds and gives back every interface, peer and attribute in order (an
    omitted endpoint, port or keepalive as the empty string) if and only if every supplied string
    is trimmed and free of newlines.
   */
  lemma RoundTripIff(ws: seq<WireguardIR>)
    ensures Fold([], Lines(Artifact(ws))) == Success(Views(ws)) <==> AllTidy(ws)
  {
    if AllTidy(ws) {
      TidyReadsBack(ws);
    }
    var text := Artifact(ws);
    ReadTidy(text);
    if Fold([], Lines(text)) == Success(Views(ws)) {
      ViewsTidy(ws);
    }
  }
}

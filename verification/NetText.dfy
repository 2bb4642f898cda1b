/**
  Printed addresses and prefixes. The text here stands for the address library's: what the proofs
  use is that it has no white space or comma and that different prefixes print differently.
 */
module NetText {
  import opened Net
  import opened Text

  function BitText(bits: seq<bool>): string {
    seq(|bits|, i requires 0 <= i < |bits| => if bits[i] then '1' else '0')
  }

  function AddrText(a: Addr): string {
    (if a.family == V4 then "4:" else "6:") + BitText(a.bits)
  }

  function PrefixText(p: Prefix): string {
    AddrText(p.addr) + "/" + Dec(p.len)
  }

  function PrefixTexts(ps: seq<Prefix>): seq<string> {
    seq(|ps|, i requires 0 <= i < |ps| => PrefixText(ps[i]))
  }

  lemma AddrTextWord(a: Addr)
    ensures IsWord(AddrText(a)) && ',' !in AddrText(a)
  {
    var t := AddrText(a);
    assert forall i :: 2 <= i < |t| ==> t[i] == '0' || t[i] == '1';
  }

  lemma PrefixTextWord(p: Prefix)
    ensures IsWord(PrefixText(p)) && ',' !in PrefixText(p) && '\n' !in PrefixText(p)
  {
    AddrTextWord(p.addr);
    DecDigits(p.len);
    var t, a, d := PrefixText(p), AddrText(p.addr), Dec(p.len);
    assert forall i :: 0 <= i < |t| ==> t[i] in a || t[i] == '/' || t[i] in d;
  }

  lemma BitTextInjective(x: seq<bool>, y: seq<bool>)
    requires BitText(x) == BitText(y)
    ensures x == y
  {
    assert |x| == |BitText(x)| == |BitText(y)| == |y|;
    forall i | 0 <= i < |x|
      ensures x[i] == y[i]
    {
      assert BitText(x)[i] == BitText(y)[i];
    }
  }

  lemma PrefixTextInjective(p: Prefix, q: Prefix)
    requires PrefixText(p) == PrefixText(q)
    ensures p == q
  {
    assert PrefixText(p)[0] == if p.addr.family == V4 then '4' else '6';
    assert PrefixText(q)[0] == if q.addr.family == V4 then '4' else '6';
    var n := 2 + Width(p.addr.family);
    assert |AddrText(p.addr)| == |AddrText(q.addr)| == n;
    assert PrefixText(p)[..n] == AddrText(p.addr) && PrefixText(q)[..n] == AddrText(q.addr);
    assert AddrText(p.addr)[2..] == BitText(p.addr.bits) && AddrText(q.addr)[2..] == BitText(q.addr.bits);
    BitTextInjective(p.addr.bits, q.addr.bits);
    assert PrefixText(p)[n + 1..] == Dec(p.len) && PrefixText(q)[n + 1..] == Dec(q.len);
    DecInjective(p.len, q.len);
  }
}

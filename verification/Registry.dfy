/** The built-in threat-feed registry and its licence gate. */
module Registry {
  import opened Basics

  datatype Feed = Feed(name: string, allowCommercial: bool, custom: bool)

  const BUILTINS: seq<Feed> := [
    Feed("feodo-tracker", true, false),
    Feed("sslbl-ips", true, false),
    Feed("et-block-ips", true, false),
    Feed("spamhaus-drop", false, false)
  ]

  function LookupIn(feeds: seq<Feed>, name: string): Option<Feed> {
    if feeds == [] then None
    else if feeds[0].name == name then Some(feeds[0])
    else LookupIn(feeds[1..], name)
  }

  function Lookup(name: string): Option<Feed> {
    LookupIn(BUILTINS, name)
  }

  /** May this feed be enabled under the declared use? */
  predicate MayEnable(f: Feed, commercialUse: bool) {
    !commercialUse || f.allowCommercial
  }

  lemma {:induction false} LookupInFinds(feeds: seq<Feed>, name: string)
    ensures LookupIn(feeds, name).Some? ==>
              LookupIn(feeds, name).value in feeds && LookupIn(feeds, name).value.name == name
    ensures LookupIn(feeds, name).None? ==> forall f :: f in feeds ==> f.name != name
  {
    if feeds != [] && feeds[0].name != name {
      LookupInFinds(feeds[1..], name);
    }
  }
}

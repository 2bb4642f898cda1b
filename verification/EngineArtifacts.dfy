/** What a supervisor handles: one artifact for each named engine. */
module EngineArtifacts {
  import opened Nft

  datatype EngineName =
    | Nftables | RoutesEngine | SuricataEngine | Vector | FrrEngine | Strongswan | WireguardEngine | NetdevEngine

  datatype Artifact = Rules(ruleset: Ruleset) | Text(text: string)

  type Artifacts = map<EngineName, Artifact>
}

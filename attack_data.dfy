/** The optional value that Python expresses with None. */
module Options {

  datatype Option<+T> = None | Some(value: T)
}

/** The records of the ATT&CK STIX bundle and of a group's Navigator layer
    file, as far as the navigator reads them. A field that is missing from
    the JSON is an empty string or an empty sequence here, as `dict.get`
    with a default makes it in the source. */
module AttackData {

  datatype ExternalReference = ExternalReference(sourceName: string, externalId: string)

  datatype KillChainPhase = KillChainPhase(killChainName: string, phaseName: string)

  /** One element of the bundle's `objects` list. */
  datatype StixObject = StixObject(
    objectType: string,
    name: string,
    externalReferences: seq<ExternalReference>,
    killChainPhases: seq<KillChainPhase>,
    aliases: seq<string>)

  /** One element of a layer's `techniques` list. */
  datatype LayerEntry = LayerEntry(techniqueId: string, comment: string)

  datatype Layer = Layer(name: string, techniques: seq<LayerEntry>)

  /** The name ATT&CK uses both as its reference source and as its kill chain. */
  const MitreAttack := "mitre-attack"

  predicate StartsWith(s: string, c: char)
  {
    |s| > 0 && s[0] == c
  }

  /** An ATT&CK identifier reference whose id starts with `prefix`
      ('T' for techniques, 'G' for groups). */
  predicate IsAttackId(r: ExternalReference, prefix: char)
  {
    r.sourceName == MitreAttack && StartsWith(r.externalId, prefix)
  }
}

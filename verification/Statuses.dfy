/** What the two kinds keep in status about what they published (api/v1alpha1). */
module Statuses {
  import opened Strings
  import opened Registries
  import opened Tags

  /** The three answers to a tag that names another digest: refuse, move it, or leave it. */
  datatype Policy = Fail | Overwrite | Keep

  /** Where an object publishes: the public name of its repository, its tags in order, its policy. */
  datatype Target = Target(pull: string, tags: seq<string>, policy: Policy)

  /** status.conflict: content that was not published because a tag was kept. */
  datatype TagConflict = TagConflict(tag: string, existing: string, dropped: string)

  /** Which attestations the controller attaches. */
  datatype Attestor = Attestor(sbom: bool, provenance: bool, key: bool)

  datatype Attestation = Attestation(subject: string, sbom: string, provenance: string, signature: string)

  /** Whether the record in status says everything enabled is attached to the subject. */
  predicate Complete(a: Attestor, rec: Option<Attestation>, subject: string) {
    || (!a.sbom && !a.provenance && !a.key)
    || (&& rec.Some? && rec.value.subject == subject
        && (a.sbom ==> rec.value.sbom != "")
        && (a.provenance ==> rec.value.provenance != "")
        && (a.key ==> rec.value.signature != ""))
  }

  datatype Status = Status(
    artifact: Option<ArtifactStatus>, inputHash: string, history: seq<BuildRecord>,
    conflict: Option<TagConflict>, attested: Option<Attestation>)

  /** Each tag under the repository's public name. */
  function Qualified(pull: string, tags: seq<string>): seq<string> {
    seq(|tags|, i requires 0 <= i < |tags| => pull + ":" + tags[i])
  }

  /** The same digest under each tag, in order. */
  function TagWrites(tags: seq<string>, digest: string): seq<Write> {
    seq(|tags|, i requires 0 <= i < |tags| => PutTag(tags[i], digest))
  }
}

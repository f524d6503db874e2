/** The record builder: turns the profiles read from a coverage report into
    normalized Coverage records, failing on the first file name that does
    not have the host/owner/[repo/]path shape. */
module RecordBuilder {
  import opened CoverageTypes
  import opened Extraction

  /** The identity a record carries. */
  function IdentityOf(c: Coverage): Identity
  {
    Identity(c.host, c.owner, c.repo, c.path)
  }

  /** A profile whose file name the pattern accepts. */
  predicate Accepted(p: Profile)
  {
    ExtractIdentity(p.fileName).Some?
  }

  /** c is the record built from p: same name, same blocks, and the identity
      the pattern extracts from the name. */
  predicate RecordOf(p: Profile, c: Coverage)
  {
    && c.fileName == p.fileName
    && c.blocks == p.blocks
    && ExtractIdentity(p.fileName) == Some(IdentityOf(c))
  }

  /** Builds the records for the outcome of the external profile reader.
      A reader failure becomes InvalidCoverageData carrying its message; an
      empty profile list is not an error; otherwise every profile yields one
      record in order, or the first rejected file name aborts the whole parse. */
  method Parse(parsed: Result<seq<Profile>, string>) returns (r: Result<seq<Coverage>, CoverageError>)
    ensures parsed.Failure? ==> r == Failure(InvalidCoverageData(ReportRejected(parsed.error)))
    ensures parsed.Success? ==>
      (r.Success? <==> forall i :: 0 <= i < |parsed.value| ==> Accepted(parsed.value[i]))
    ensures parsed.Success? && r.Failure? ==>
      exists i :: 0 <= i < |parsed.value|
        && !Accepted(parsed.value[i])
        && (forall j :: 0 <= j < i ==> Accepted(parsed.value[j]))
        && r.error == InvalidCoverageData(InvalidFileName(parsed.value[i].fileName))
    ensures parsed.Success? && r.Success? ==>
      && |r.value| == |parsed.value|
      && forall i :: 0 <= i < |r.value| ==> RecordOf(parsed.value[i], r.value[i])
  {
    if parsed.Failure? {
      return Failure(InvalidCoverageData(ReportRejected(parsed.error)));
    }
    var profiles := parsed.value;
    if |profiles| == 0 {
      return Success([]);
    }
    var coverage: seq<Coverage> := [];
    for k := 0 to |profiles|
      invariant |coverage| == k
      invariant forall j :: 0 <= j < k ==> RecordOf(profiles[j], coverage[j])
    {
      var profile := profiles[k];
      var submatch := ExtractIdentity(profile.fileName);
      if submatch.None? {
        return Failure(InvalidCoverageData(InvalidFileName(profile.fileName)));
      }
      var id := submatch.value;
      var record := Coverage(profile.fileName, id.host, id.owner, id.repo, id.path, profile.blocks);
      assert RecordOf(profile, record);
      coverage := coverage + [record];
    }
    return Success(coverage);
  }
}

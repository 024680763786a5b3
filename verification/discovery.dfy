/** `fetchEntries` of both handlers: the files of a pull request are listed,
    removed files and paths outside `entries/` are skipped, and each
    remaining file's document is fetched and tagged with its path. The
    passkeys handler also replaces the domain by one derived from the path.
    The requests are oracles: the listing is given already decoded, and
    `raw` maps a raw-content URL to the first object of the decoded entry
    document, or to the reason its request or decoding failed. */
module Discovery {
  import opened Common
  import opened Text
  import FileDomain

  /** One element of the pull-request files listing. */
  datatype FileRecord = FileRecord(filename: string, status: string, rawUrl: string)

  /** The listing response: its status, its text (the error message when
      the status is not ok), and its decoded records. */
  datatype Listing = Listing(status: int, text: string, files: seq<FileRecord>)

  /** The fields of an entry document the tests read. A missing
      `additional-domains` or `contact.facebook` is `None`. */
  datatype EntryDoc = EntryDoc(domain: string, additionalDomains: Option<seq<string>>, facebook: Option<string>)

  /** An entry as the handlers see it: the document tagged with its path. */
  datatype Entry = Entry(file: string, domain: string, additionalDomains: Option<seq<string>>, facebook: Option<string>)

  /** Which handler runs discovery: only the passkeys one rewrites `domain`. */
  datatype Variant = Passkeys | TwoFactorAuth

  type RawSource = string -> Fetched<EntryDoc>

  const RemovedStatus: string := "removed"
  const EntriesPrefix: string := "entries/"

  /** A record whose document is fetched. */
  predicate IsCandidate(r: FileRecord) {
    r.status != RemovedStatus && StartsWith(r.filename, EntriesPrefix)
  }

  /** The candidates, in listing order. */
  function Candidates(files: seq<FileRecord>): (c: seq<FileRecord>)
    ensures |c| <= |files|
    decreases |files|
  {
    if |files| == 0 then []
    else (if IsCandidate(files[0]) then [files[0]] else []) + Candidates(files[1..])
  }

  /** A record is a candidate exactly when it is listed, not removed and
      under `entries/`. */
  lemma {:induction false} CandidatesExactly(files: seq<FileRecord>, r: FileRecord)
    ensures r in Candidates(files) <==> r in files && IsCandidate(r)
    decreases |files|
  {
    if |files| > 0 {
      CandidatesExactly(files[1..], r);
      assert files == [files[0]] + files[1..];
    }
  }

  /** Filtering keeps listing order: it distributes over concatenation. */
  lemma {:induction false} CandidatesAppend(a: seq<FileRecord>, b: seq<FileRecord>)
    ensures Candidates(a + b) == Candidates(a) + Candidates(b)
    decreases |a|
  {
    if |a| == 0 {
      assert a + b == b;
    } else {
      var head := if IsCandidate(a[0]) then [a[0]] else [];
      assert (a + b)[0] == a[0];
      assert (a + b)[1..] == a[1..] + b;
      CandidatesAppend(a[1..], b);
      assert Candidates(a + b) == head + (Candidates(a[1..]) + Candidates(b));
      assert Candidates(a) == head + Candidates(a[1..]);
    }
  }

  /** The entry built from a candidate and its document. */
  function Tag(r: FileRecord, doc: EntryDoc, variant: Variant): Entry {
    var domain := if variant == Passkeys then FileDomain.StripDomain(r.filename) else doc.domain;
    Entry(r.filename, domain, doc.additionalDomains, doc.facebook)
  }

  /** The loop over the listing: records are visited in order, and the first
      document that cannot be obtained ends discovery with its reason. */
  function Discover(files: seq<FileRecord>, variant: Variant, raw: RawSource): Result<seq<Entry>>
    decreases |files|
  {
    if |files| == 0 then Ok([])
    else if !IsCandidate(files[0]) then Discover(files[1..], variant, raw)
    else
      match raw(files[0].rawUrl)
      case Failed(e) => Err(e)
      case Got(doc) =>
        match Discover(files[1..], variant, raw)
        case Ok(es) => Ok([Tag(files[0], doc, variant)] + es)
        case Err(e) => Err(e)
  }

  /** Every candidate's document is available. */
  predicate AllAvailable(cands: seq<FileRecord>, raw: RawSource) {
    forall i :: 0 <= i < |cands| ==> raw(cands[i].rawUrl).Got?
  }

  /** The tagged entries of the candidates, one per candidate, in order. */
  predicate TagsAll(es: seq<Entry>, cands: seq<FileRecord>, variant: Variant, raw: RawSource) {
    && |es| == |cands|
    && forall i :: 0 <= i < |es| ==>
         raw(cands[i].rawUrl).Got? && es[i] == Tag(cands[i], raw(cands[i].rawUrl).value, variant)
  }

  /** Filtering first and then discovering changes nothing. */
  lemma {:induction false} DiscoverFiltersFirst(files: seq<FileRecord>, variant: Variant, raw: RawSource)
    ensures Discover(files, variant, raw) == Discover(Candidates(files), variant, raw)
    decreases |files|
  {
    if |files| > 0 {
      DiscoverFiltersFirst(files[1..], variant, raw);
      var rest := Candidates(files[1..]);
      if IsCandidate(files[0]) {
        var c := [files[0]] + rest;
        assert Candidates(files) == c;
        assert c[0] == files[0] && c[1..] == rest;
        assert Discover(c, variant, raw) == Discover(files, variant, raw);
      } else {
        assert Candidates(files) == rest;
      }
    }
  }

  /** On a list of candidates, discovery succeeds exactly when every
      document is available, and then tags each candidate in order. */
  lemma {:induction false} DiscoverTagsEach(cs: seq<FileRecord>, variant: Variant, raw: RawSource)
    requires forall i :: 0 <= i < |cs| ==> IsCandidate(cs[i])
    ensures Discover(cs, variant, raw).Ok? <==> AllAvailable(cs, raw)
    ensures Discover(cs, variant, raw).Ok? ==> TagsAll(Discover(cs, variant, raw).value, cs, variant, raw)
    decreases |cs|
  {
    if |cs| > 0 {
      DiscoverTagsEach(cs[1..], variant, raw);
      assert forall i :: 1 <= i < |cs| ==> cs[1..][i - 1] == cs[i];
      var d := Discover(cs, variant, raw);
      if d.Ok? {
        var es := Discover(cs[1..], variant, raw).value;
        assert d.value == [Tag(cs[0], raw(cs[0].rawUrl).value, variant)] + es;
        assert forall i :: 1 <= i < |d.value| ==> d.value[i] == es[i - 1];
      }
    }
  }

  /** On a list of candidates, a failure carries the reason of the first
      document that could not be obtained. */
  lemma {:induction false} DiscoverStopsAtFirstMissing(cs: seq<FileRecord>, variant: Variant, raw: RawSource)
    requires forall i :: 0 <= i < |cs| ==> IsCandidate(cs[i])
    requires Discover(cs, variant, raw).Err?
    ensures exists i :: && 0 <= i < |cs|
                        && raw(cs[i].rawUrl) == Failed(Discover(cs, variant, raw).error)
                        && forall j :: 0 <= j < i ==> raw(cs[j].rawUrl).Got?
    decreases |cs|
  {
    var e := Discover(cs, variant, raw).error;
    if raw(cs[0].rawUrl).Got? {
      var tail := cs[1..];
      assert forall i :: 0 <= i < |tail| ==> tail[i] == cs[i + 1];
      DiscoverStopsAtFirstMissing(tail, variant, raw);
      var i :| && 0 <= i < |tail|
               && raw(tail[i].rawUrl) == Failed(Discover(tail, variant, raw).error)
               && forall j :: 0 <= j < i ==> raw(tail[j].rawUrl).Got?;
      assert raw(cs[i + 1].rawUrl) == Failed(e);
    } else {
      assert raw(cs[0].rawUrl) == Failed(e);
    }
  }

  /** Discovery agrees with filtering first and fetching afterwards: it
      succeeds exactly when every candidate's document is available, and
      then yields one entry per candidate in listing order. */
  lemma DiscoverIsFilterThenTag(files: seq<FileRecord>, variant: Variant, raw: RawSource)
    ensures Discover(files, variant, raw).Ok? <==> AllAvailable(Candidates(files), raw)
    ensures Discover(files, variant, raw).Ok? ==>
              TagsAll(Discover(files, variant, raw).value, Candidates(files), variant, raw)
  {
    CandidatesAreCandidates(files);
    DiscoverFiltersFirst(files, variant, raw);
    DiscoverTagsEach(Candidates(files), variant, raw);
  }

  /** When discovery fails, the reason is that of the first candidate whose
      document could not be obtained. */
  lemma DiscoverFailsAtFirstMissing(files: seq<FileRecord>, variant: Variant, raw: RawSource)
    requires Discover(files, variant, raw).Err?
    ensures var c := Candidates(files);
            exists i :: && 0 <= i < |c|
                        && raw(c[i].rawUrl) == Failed(Discover(files, variant, raw).error)
                        && forall j :: 0 <= j < i ==> raw(c[j].rawUrl).Got?
  {
    CandidatesAreCandidates(files);
    DiscoverFiltersFirst(files, variant, raw);
    DiscoverStopsAtFirstMissing(Candidates(files), variant, raw);
  }

  lemma CandidatesAreCandidates(files: seq<FileRecord>)
    ensures forall i :: 0 <= i < |Candidates(files)| ==> IsCandidate(Candidates(files)[i]) && Candidates(files)[i] in files
  {
    forall i | 0 <= i < |Candidates(files)|
      ensures IsCandidate(Candidates(files)[i]) && Candidates(files)[i] in files
    {
      CandidatesExactly(files, Candidates(files)[i]);
    }
  }

  /** Only candidates are fetched: oracles that agree on the candidates'
      URLs give the same discovery. */
  lemma {:induction false} DiscoverReadsOnlyCandidates(files: seq<FileRecord>, variant: Variant, raw1: RawSource, raw2: RawSource)
    requires forall r :: r in files && IsCandidate(r) ==> raw1(r.rawUrl) == raw2(r.rawUrl)
    ensures Discover(files, variant, raw1) == Discover(files, variant, raw2)
    decreases |files|
  {
    if |files| > 0 {
      assert files[0] in files;
      assert forall r :: r in files[1..] ==> r in files;
      DiscoverReadsOnlyCandidates(files[1..], variant, raw1, raw2);
    }
  }

  /** Each entry keeps its path; its domain is the one derived from the path
      in the passkeys handler and the document's own in the other. */
  lemma EntryFields(files: seq<FileRecord>, variant: Variant, raw: RawSource, i: nat)
    requires Discover(files, variant, raw).Ok? && i < |Discover(files, variant, raw).value|
    ensures |Candidates(files)| == |Discover(files, variant, raw).value|
    ensures raw(Candidates(files)[i].rawUrl).Got?
    ensures var e := Discover(files, variant, raw).value[i];
            var r := Candidates(files)[i];
            && e.file == r.filename
            && r in files && r.status != RemovedStatus && StartsWith(e.file, EntriesPrefix)
            && (variant == Passkeys ==> e.domain == FileDomain.StripDomain(r.filename))
            && (variant == TwoFactorAuth ==> e.domain == raw(r.rawUrl).value.domain)
            && e.additionalDomains == raw(r.rawUrl).value.additionalDomains
            && e.facebook == raw(r.rawUrl).value.facebook
  {
    DiscoverIsFilterThenTag(files, variant, raw);
    var r := Candidates(files)[i];
    CandidatesExactly(files, r);
  }

  /** `fetchEntries`: a listing that cannot be obtained, or whose status is
      not ok, fails before any entry is looked at; the failure of a non-ok
      listing carries the response text. */
  function FetchEntries(listing: Fetched<Listing>, variant: Variant, raw: RawSource): (r: Result<seq<Entry>>)
    ensures listing.Failed? ==> r == Err(listing.reason)
    ensures listing.Got? && !IsOk(listing.value.status) ==> r == Err(listing.value.text)
    ensures listing.Got? && IsOk(listing.value.status) ==> r == Discover(listing.value.files, variant, raw)
  {
    match listing
    case Failed(e) => Err(e)
    case Got(l) => if !IsOk(l.status) then Err(l.text) else Discover(l.files, variant, raw)
  }

  /** The two handlers discover the same files; they differ only in where an
      entry's domain comes from. */
  lemma VariantsAgreeButForDomain(listing: Fetched<Listing>, raw: RawSource)
    ensures FetchEntries(listing, Passkeys, raw).Ok? <==> FetchEntries(listing, TwoFactorAuth, raw).Ok?
    ensures FetchEntries(listing, Passkeys, raw).Ok? ==>
              var p := FetchEntries(listing, Passkeys, raw).value;
              var t := FetchEntries(listing, TwoFactorAuth, raw).value;
              |p| == |t| && forall i :: 0 <= i < |p| ==> p[i] == t[i].(domain := p[i].domain)
  {
    if listing.Got? && IsOk(listing.value.status) {
      DiscoverIsFilterThenTag(listing.value.files, Passkeys, raw);
      DiscoverIsFilterThenTag(listing.value.files, TwoFactorAuth, raw);
    }
  }
}

/**
 * The merge engine of syncQuotes.js: record validation and normalisation,
 * and mergeQuotes, which reconciles the locally stored quotes with the
 * server's under a server-wins policy and reports field-level conflicts.
 */
module MergeEngine {
  import opened Wrappers
  import opened JsString
  import opened QuoteModel

  const UNKNOWN_AUTHOR: string := "Unknown"

  /** validateQuote: a string id, and text and category that are strings with a non-blank trim. */
  predicate ValidateQuote(q: Quote) {
    && q.id.Some?
    && q.text.Some? && Trim(q.text.value) != ""
    && q.category.Some? && Trim(q.category.value) != ""
  }

  /** A record is accepted exactly when its id is present and its text and category hold a non-whitespace character. */
  lemma ValidateQuoteMeaning(q: Quote)
    ensures ValidateQuote(q) <==>
      q.id.Some? && q.text.Some? && !Blank(q.text.value) && q.category.Some? && !Blank(q.category.value)
  {
  }

  /** `author || "Unknown"`: an absent or empty author is replaced. */
  function AuthorOrUnknown(author: Option<string>): string {
    if author.Some? && author.value != "" then author.value else UNKNOWN_AUTHOR
  }

  /** Boolean(editable): an absent flag is false, any other value counts by its truthiness. */
  function Truthy(flag: Option<Flag>): bool {
    match flag
    case None => false
    case Some(Bool(b)) => b
    case Some(Other(truthy)) => truthy
  }

  /** The shape normalizeQuote gives a record: trimmed strings and a boolean flag. */
  predicate IsNormal(q: Quote) {
    && q.text.Some? && Trim(q.text.value) == q.text.value
    && q.category.Some? && Trim(q.category.value) == q.category.value
    && q.author.Some? && Trim(q.author.value) == q.author.value
    && q.editable.Some? && q.editable.value.Bool?
  }

  /** An author made only of whitespace: trimming turns it into "" and not into "Unknown". */
  predicate WhitespaceOnlyAuthor(q: Quote) {
    q.author.Some? && q.author.value != "" && Blank(q.author.value)
  }

  /** normalizeQuote; its only caller passes records that passed validateQuote. */
  function NormalizeQuote(q: Quote): (r: Quote)
    requires ValidateQuote(q)
    ensures r.id == q.id
    ensures ValidateQuote(r) && IsNormal(r)
  {
    TrimIdempotent(q.text.value);
    TrimIdempotent(q.category.value);
    TrimIdempotent(AuthorOrUnknown(q.author));
    q.(text := Some(Trim(q.text.value)),
       category := Some(Trim(q.category.value)),
       author := Some(Trim(AuthorOrUnknown(q.author))),
       editable := Some(Bool(Truthy(q.editable))))
  }

  /**
   * Boolean(quote.editable): the normalised flag is a boolean, true exactly
   * when the stored value is true or another truthy value such as 1 or "yes".
   */
  lemma NormalizedFlag(q: Quote)
    requires ValidateQuote(q)
    ensures NormalizeQuote(q).editable.Some? && NormalizeQuote(q).editable.value.Bool?
    ensures NormalizeQuote(q).editable.value.b <==> q.editable == Some(Bool(true)) || q.editable == Some(Other(true))
  {
  }

  lemma TrimUnknown()
    ensures Trim(UNKNOWN_AUTHOR) == UNKNOWN_AUTHOR
  {
    assert !IsWhitespace(UNKNOWN_AUTHOR[0]) && !IsWhitespace(UNKNOWN_AUTHOR[|UNKNOWN_AUTHOR| - 1]);
  }

  /** The normalised author is empty exactly for a whitespace-only author. */
  lemma NormalizedAuthorEmpty(q: Quote)
    requires ValidateQuote(q)
    ensures NormalizeQuote(q).author == Some("") <==> WhitespaceOnlyAuthor(q)
  {
    if !(q.author.Some? && q.author.value != "") {
      TrimUnknown();
    }
  }

  /** A normal record is left as it is by normalizeQuote exactly when its author is not empty. */
  lemma NormalFixedPoint(q: Quote)
    requires ValidateQuote(q) && IsNormal(q)
    ensures NormalizeQuote(q) == q <==> q.author != Some("")
  {
    var n := NormalizeQuote(q);
    if q.author != Some("") {
      assert AuthorOrUnknown(q.author) == q.author.value;
      assert n.text == q.text && n.category == q.category && n.author == q.author;
      assert Truthy(q.editable) == q.editable.value.b;
    } else {
      TrimUnknown();
      assert n.author == Some(UNKNOWN_AUTHOR);
    }
  }

  /** normalizeQuote is idempotent on a record exactly when its author is not whitespace-only. */
  lemma NormalizeIdempotent(q: Quote)
    requires ValidateQuote(q)
    ensures NormalizeQuote(NormalizeQuote(q)) == NormalizeQuote(q) <==> !WhitespaceOnlyAuthor(q)
  {
    NormalizedAuthorEmpty(q);
    NormalFixedPoint(NormalizeQuote(q));
  }

  /** The record that shows it: an author of one space becomes "" and then "Unknown". */
  lemma NormalizeNotIdempotentOnBlankAuthor()
    ensures var q := Quote(Some("1"), Some("A"), Some("X"), Some(" "), None);
      && ValidateQuote(q)
      && NormalizeQuote(q).author == Some("")
      && NormalizeQuote(NormalizeQuote(q)).author == Some(UNKNOWN_AUTHOR)
  {
    var q := Quote(Some("1"), Some("A"), Some("X"), Some(" "), None);
    assert !IsWhitespace('A') && !IsWhitespace('X');
    NormalizedAuthorEmpty(q);
    TrimUnknown();
  }

  /** `qs.filter(validateQuote).map(normalizeQuote)`. */
  function ValidNormalized(qs: seq<Quote>): (r: seq<Quote>)
    ensures |r| <= |qs|
    ensures forall x :: x in r ==> ValidateQuote(x) && IsNormal(x)
  {
    if qs == [] then []
    else
      var q := qs[|qs| - 1];
      ValidNormalized(qs[..|qs| - 1]) + (if ValidateQuote(q) then [NormalizeQuote(q)] else [])
  }

  /** The valid, normalised records are exactly the normalised images of the valid input records. */
  lemma {:induction false} ValidNormalizedMembers(qs: seq<Quote>, x: Quote)
    ensures x in ValidNormalized(qs) <==> exists q :: q in qs && ValidateQuote(q) && NormalizeQuote(q) == x
  {
    if qs != [] {
      var init, q := qs[..|qs| - 1], qs[|qs| - 1];
      assert qs == init + [q];
      ValidNormalizedMembers(init, x);
    }
  }

  /** Every id in the valid, normalised records is an id of some raw record. */
  lemma ValidNormalizedIds(qs: seq<Quote>)
    ensures forall x :: x in ValidNormalized(qs) ==> x.id in RawIds(qs)
  {
    forall x | x in ValidNormalized(qs) ensures x.id in RawIds(qs) {
      ValidNormalizedMembers(qs, x);
    }
  }

  /** `new Set(serverQuotes.map((quote) => quote.id))`, over the raw records. */
  function RawIds(qs: seq<Quote>): set<Option<string>> {
    set q | q in qs :: q.id
  }

  /** The records of qs whose id is not in ids, in their order. */
  function LocalOnly(qs: seq<Quote>, ids: set<Option<string>>): seq<Quote> {
    if qs == [] then []
    else
      var q := qs[|qs| - 1];
      LocalOnly(qs[..|qs| - 1], ids) + (if q.id !in ids then [q] else [])
  }

  /** A record is kept exactly when it is in qs and its id is not in ids. */
  lemma {:induction false} LocalOnlyMembers(qs: seq<Quote>, ids: set<Option<string>>)
    ensures forall x :: x in LocalOnly(qs, ids) <==> x in qs && x.id !in ids
  {
    if qs != [] {
      var init, q := qs[..|qs| - 1], qs[|qs| - 1];
      assert qs == init + [q];
      LocalOnlyMembers(init, ids);
    }
  }

  /** The records kept keep their relative order. */
  lemma {:induction false} LocalOnlyIsSubsequence(qs: seq<Quote>, ids: set<Option<string>>)
    ensures IsSubsequence(LocalOnly(qs, ids), qs)
  {
    if qs != [] {
      var init, q := qs[..|qs| - 1], qs[|qs| - 1];
      LocalOnlyIsSubsequence(init, ids);
      var r := LocalOnly(qs, ids);
      if q.id !in ids {
        assert r[..|r| - 1] == LocalOnly(init, ids);
      } else {
        assert r == LocalOnly(init, ids);
      }
    }
  }

  lemma {:induction false} LocalOnlyAppend(a: seq<Quote>, b: seq<Quote>, ids: set<Option<string>>)
    ensures LocalOnly(a + b, ids) == LocalOnly(a, ids) + LocalOnly(b, ids)
    decreases |b|
  {
    if b != [] {
      var init, q := b[..|b| - 1], b[|b| - 1];
      assert (a + b)[..|a + b| - 1] == a + init;
      assert (a + b)[|a + b| - 1] == q;
      LocalOnlyAppend(a, init, ids);
      var tail := if q.id !in ids then [q] else [];
      assert LocalOnly(a + b, ids) == LocalOnly(a + init, ids) + tail;
      assert LocalOnly(b, ids) == LocalOnly(init, ids) + tail;
    } else {
      assert a + b == a;
    }
  }

  lemma {:induction false} LocalOnlyKeepsAll(qs: seq<Quote>, ids: set<Option<string>>)
    requires forall x :: x in qs ==> x.id !in ids
    ensures LocalOnly(qs, ids) == qs
  {
    if qs != [] {
      assert qs == qs[..|qs| - 1] + [qs[|qs| - 1]];
      LocalOnlyKeepsAll(qs[..|qs| - 1], ids);
    }
  }

  lemma {:induction false} LocalOnlyDropsAll(qs: seq<Quote>, ids: set<Option<string>>)
    requires forall x :: x in qs ==> x.id in ids
    ensures LocalOnly(qs, ids) == []
  {
    if qs != [] {
      assert qs == qs[..|qs| - 1] + [qs[|qs| - 1]];
      LocalOnlyDropsAll(qs[..|qs| - 1], ids);
    }
  }

  /** Position of the first record with the given id (|qs| when there is none). */
  function FindIndex(qs: seq<Quote>, id: Option<string>): (k: nat)
    ensures k <= |qs|
    ensures forall j :: 0 <= j < k ==> qs[j].id != id
    ensures k < |qs| ==> qs[k].id == id
  {
    if qs == [] then 0
    else if qs[0].id == id then 0
    else 1 + FindIndex(qs[1..], id)
  }

  /** `validLocalQuotes.find((quote) => quote.id === serverQuote.id)`. */
  function FirstWithId(qs: seq<Quote>, id: Option<string>): (r: Option<Quote>)
    ensures r.None? <==> forall q :: q in qs ==> q.id != id
    ensures r.Some? ==> r.value in qs && r.value.id == id
  {
    var k := FindIndex(qs, id);
    if k < |qs| then Some(qs[k]) else None
  }

  datatype ConflictFields = ConflictFields(text: bool, category: bool, author: bool)

  /** A conflict record: the server and local versions of one id and the fields that differ. */
  datatype Conflict = Conflict(id: Option<string>, local: Quote, server: Quote, fields: ConflictFields)

  function FieldsInConflict(local: Quote, server: Quote): ConflictFields {
    ConflictFields(local.text != server.text, local.category != server.category, local.author != server.author)
  }

  predicate AnyConflict(f: ConflictFields) {
    f.text || f.category || f.author
  }

  function ConflictBetween(local: Quote, server: Quote): Conflict {
    Conflict(server.id, local, server, FieldsInConflict(local, server))
  }

  /** The conflict (zero or one) reported for one valid server record. */
  function ConflictFor(validLocal: seq<Quote>, server: Quote): seq<Conflict> {
    match FirstWithId(validLocal, server.id)
    case None => []
    case Some(local) => if AnyConflict(FieldsInConflict(local, server)) then [ConflictBetween(local, server)] else []
  }

  /** The conflicts of a pass over the valid server records, in server order. */
  function Conflicts(validLocal: seq<Quote>, validServer: seq<Quote>): seq<Conflict> {
    if validServer == [] then []
    else Conflicts(validLocal, validServer[..|validServer| - 1]) + ConflictFor(validLocal, validServer[|validServer| - 1])
  }

  function ConflictServers(cs: seq<Conflict>): (r: seq<Quote>)
    ensures |r| == |cs| && forall i :: 0 <= i < |cs| ==> r[i] == cs[i].server
  {
    seq(|cs|, i requires 0 <= i < |cs| => cs[i].server)
  }

  /**
   * A conflict is reported for a valid server record exactly when the first
   * valid local record with its id differs in text, category or author; its
   * flags are those three comparisons; conflicts follow server order.
   */
  lemma {:induction false} ConflictsCharacterised(validLocal: seq<Quote>, validServer: seq<Quote>)
    ensures forall c :: c in Conflicts(validLocal, validServer) ==>
      && c.server in validServer && c.id == c.server.id
      && FirstWithId(validLocal, c.id) == Some(c.local)
      && c.fields == FieldsInConflict(c.local, c.server) && AnyConflict(c.fields)
    ensures forall s ::
      s in validServer && FirstWithId(validLocal, s.id).Some?
      && AnyConflict(FieldsInConflict(FirstWithId(validLocal, s.id).value, s))
      ==> ConflictBetween(FirstWithId(validLocal, s.id).value, s) in Conflicts(validLocal, validServer)
    ensures IsSubsequence(ConflictServers(Conflicts(validLocal, validServer)), validServer)
  {
    if validServer != [] {
      var init, s := validServer[..|validServer| - 1], validServer[|validServer| - 1];
      assert validServer == init + [s];
      ConflictsCharacterised(validLocal, init);
      var before := Conflicts(validLocal, init);
      var cs := Conflicts(validLocal, validServer);
      if ConflictFor(validLocal, s) != [] {
        assert ConflictServers(cs)[..|cs| - 1] == ConflictServers(before);
      } else {
        assert ConflictServers(cs) == ConflictServers(before);
      }
    }
  }

  /** No valid server record shares an id with a valid local record: no conflicts. */
  lemma {:induction false} DisjointNoConflicts(validLocal: seq<Quote>, validServer: seq<Quote>)
    requires forall s, l :: s in validServer && l in validLocal ==> s.id != l.id
    ensures Conflicts(validLocal, validServer) == []
  {
    if validServer != [] {
      DisjointNoConflicts(validLocal, validServer[..|validServer| - 1]);
    }
  }

  /** When every valid server record finds itself first, nothing conflicts. */
  lemma {:induction false} SelfFirstNoConflicts(validLocal: seq<Quote>, validServer: seq<Quote>)
    requires forall s :: s in validServer ==> FirstWithId(validLocal, s.id) == Some(s)
    ensures Conflicts(validLocal, validServer) == []
  {
    if validServer != [] {
      SelfFirstNoConflicts(validLocal, validServer[..|validServer| - 1]);
    }
  }

  /** mergedQuotes: valid server records first, then valid local records whose id the server list lacks. */
  function MergedQuotes(localQuotes: seq<Quote>, serverQuotes: seq<Quote>): seq<Quote> {
    ValidNormalized(serverQuotes) + LocalOnly(ValidNormalized(localQuotes), RawIds(serverQuotes))
  }

  function MergeConflicts(localQuotes: seq<Quote>, serverQuotes: seq<Quote>): seq<Conflict> {
    Conflicts(ValidNormalized(localQuotes), ValidNormalized(serverQuotes))
  }

  lemma ConflictsSnoc(validLocal: seq<Quote>, validServer: seq<Quote>, i: nat)
    requires i < |validServer|
    ensures Conflicts(validLocal, validServer[..i + 1]) == Conflicts(validLocal, validServer[..i]) + ConflictFor(validLocal, validServer[i])
  {
    assert validServer[..i + 1][..i] == validServer[..i];
  }

  /** One step of the conflict pass, as the loop body computes it. */
  lemma ConflictStep(validLocal: seq<Quote>, validServer: seq<Quote>, i: nat, localQuote: Option<Quote>)
    requires i < |validServer| && localQuote == FirstWithId(validLocal, validServer[i].id)
    ensures Conflicts(validLocal, validServer[..i + 1]) == Conflicts(validLocal, validServer[..i]) +
      if localQuote.Some? && AnyConflict(FieldsInConflict(localQuote.value, validServer[i]))
      then [ConflictBetween(localQuote.value, validServer[i])] else []
  {
    ConflictsSnoc(validLocal, validServer, i);
  }

  lemma LocalOnlySnoc(qs: seq<Quote>, ids: set<Option<string>>, j: nat)
    requires j < |qs|
    ensures LocalOnly(qs[..j + 1], ids) == LocalOnly(qs[..j], ids) + (if qs[j].id !in ids then [qs[j]] else [])
  {
    assert qs[..j + 1][..j] == qs[..j];
  }

  /** mergeQuotes, with the two forEach loops of the source. */
  method MergeQuotes(localQuotes: seq<Quote>, serverQuotes: seq<Quote>)
    returns (mergedQuotes: seq<Quote>, conflicts: seq<Conflict>)
    ensures mergedQuotes == MergedQuotes(localQuotes, serverQuotes)
    ensures conflicts == MergeConflicts(localQuotes, serverQuotes)
  {
    var serverQuoteIds := RawIds(serverQuotes);
    var validLocalQuotes := ValidNormalized(localQuotes);
    var validServerQuotes := ValidNormalized(serverQuotes);
    mergedQuotes, conflicts := MergeServerQuotes(validLocalQuotes, validServerQuotes);
    mergedQuotes := AppendLocalOnly(mergedQuotes, validLocalQuotes, serverQuoteIds);
  }

  /**
   * The first forEach of mergeQuotes: every valid server record is kept, and
   * a conflict is recorded when the first valid local record with its id
   * differs from it.
   */
  method MergeServerQuotes(validLocalQuotes: seq<Quote>, validServerQuotes: seq<Quote>)
    returns (mergedQuotes: seq<Quote>, conflicts: seq<Conflict>)
    ensures mergedQuotes == validServerQuotes
    ensures conflicts == Conflicts(validLocalQuotes, validServerQuotes)
  {
    mergedQuotes := [];
    conflicts := [];
    var i := 0;
    while i < |validServerQuotes|
      invariant 0 <= i <= |validServerQuotes|
      invariant mergedQuotes == validServerQuotes[..i]
      invariant conflicts == Conflicts(validLocalQuotes, validServerQuotes[..i])
    {
      var serverQuote := validServerQuotes[i];
      var localQuote := FirstWithId(validLocalQuotes, serverQuote.id);
      ConflictStep(validLocalQuotes, validServerQuotes, i, localQuote);
      if localQuote.Some? {
        var fields := FieldsInConflict(localQuote.value, serverQuote);
        if AnyConflict(fields) {
          conflicts := conflicts + [Conflict(serverQuote.id, localQuote.value, serverQuote, fields)];
        }
      }
      // Server wins: the server record is kept whether or not it conflicts.
      assert validServerQuotes[..i + 1] == validServerQuotes[..i] + [serverQuote];
      mergedQuotes := mergedQuotes + [serverQuote];
      i := i + 1;
    }
    assert validServerQuotes[..i] == validServerQuotes;
  }

  /** The second forEach of mergeQuotes: append the valid local records whose id the server list lacks. */
  method AppendLocalOnly(merged: seq<Quote>, validLocalQuotes: seq<Quote>, serverQuoteIds: set<Option<string>>)
    returns (mergedQuotes: seq<Quote>)
    ensures mergedQuotes == merged + LocalOnly(validLocalQuotes, serverQuoteIds)
  {
    mergedQuotes := merged;
    var j := 0;
    while j < |validLocalQuotes|
      invariant 0 <= j <= |validLocalQuotes|
      invariant mergedQuotes == merged + LocalOnly(validLocalQuotes[..j], serverQuoteIds)
    {
      var localQuote := validLocalQuotes[j];
      LocalOnlySnoc(validLocalQuotes, serverQuoteIds, j);
      if localQuote.id !in serverQuoteIds {
        mergedQuotes := mergedQuotes + [localQuote];
      }
      j := j + 1;
    }
    assert validLocalQuotes[..j] == validLocalQuotes;
  }

  /**
   * The merged list holds exactly the valid, normalised server records and
   * the valid, normalised local records whose id is absent from the raw
   * server list; every merged record is valid and normal.
   */
  lemma MergedContents(localQuotes: seq<Quote>, serverQuotes: seq<Quote>)
    ensures forall x :: x in MergedQuotes(localQuotes, serverQuotes) <==>
      || x in ValidNormalized(serverQuotes)
      || (x in ValidNormalized(localQuotes) && x.id !in RawIds(serverQuotes))
    ensures forall x :: x in MergedQuotes(localQuotes, serverQuotes) ==> ValidateQuote(x) && IsNormal(x)
  {
    LocalOnlyMembers(ValidNormalized(localQuotes), RawIds(serverQuotes));
  }

  /**
   * Server wins: any merged record whose id occurs in the raw server list is
   * a normalised valid server record, whatever the local content was.
   */
  lemma ServerWins(localQuotes: seq<Quote>, serverQuotes: seq<Quote>)
    ensures forall x :: x in MergedQuotes(localQuotes, serverQuotes) && x.id in RawIds(serverQuotes) ==>
      x in ValidNormalized(serverQuotes)
  {
    LocalOnlyMembers(ValidNormalized(localQuotes), RawIds(serverQuotes));
  }

  /**
   * The id set comes from the raw server list: a valid local record sharing
   * its id only with invalid server records is dropped from the merge.
   */
  lemma ShadowedLocalDropped(localQuotes: seq<Quote>, serverQuotes: seq<Quote>, id: Option<string>)
    requires exists s :: s in serverQuotes && s.id == id
    requires forall s :: s in serverQuotes && s.id == id ==> !ValidateQuote(s)
    ensures forall x :: x in MergedQuotes(localQuotes, serverQuotes) ==> x.id != id
  {
    LocalOnlyMembers(ValidNormalized(localQuotes), RawIds(serverQuotes));
    forall x | x in ValidNormalized(serverQuotes) ensures x.id != id {
      ValidNormalizedMembers(serverQuotes, x);
    }
  }

  /** Invalid records of either side never reach the merged list. */
  lemma InvalidNeverMerged(localQuotes: seq<Quote>, serverQuotes: seq<Quote>, q: Quote)
    requires !ValidateQuote(q)
    ensures q !in MergedQuotes(localQuotes, serverQuotes)
  {
    LocalOnlyMembers(ValidNormalized(localQuotes), RawIds(serverQuotes));
  }

  /** Disjoint ids: the merge is the union (server part first) and there are no conflicts. */
  lemma DisjointMerge(localQuotes: seq<Quote>, serverQuotes: seq<Quote>)
    requires forall l :: l in localQuotes ==> l.id !in RawIds(serverQuotes)
    ensures MergedQuotes(localQuotes, serverQuotes) == ValidNormalized(serverQuotes) + ValidNormalized(localQuotes)
    ensures MergeConflicts(localQuotes, serverQuotes) == []
  {
    var vl, vs := ValidNormalized(localQuotes), ValidNormalized(serverQuotes);
    ValidNormalizedIds(localQuotes);
    ValidNormalizedIds(serverQuotes);
    forall x | x in vl ensures x.id !in RawIds(serverQuotes) {
      var l :| l in localQuotes && l.id == x.id;
    }
    LocalOnlyKeepsAll(vl, RawIds(serverQuotes));
    DisjointNoConflicts(vl, vs);
  }

  /**
   * A shared id whose texts differ: the conflict is reported with its text
   * flag set, and the merged record for that id is the server's.
   */
  lemma SharedIdConflict(localQuotes: seq<Quote>, serverQuotes: seq<Quote>, s: Quote)
    requires s in ValidNormalized(serverQuotes)
    requires FirstWithId(ValidNormalized(localQuotes), s.id).Some?
    requires FirstWithId(ValidNormalized(localQuotes), s.id).value.text != s.text
    ensures ConflictBetween(FirstWithId(ValidNormalized(localQuotes), s.id).value, s) in MergeConflicts(localQuotes, serverQuotes)
    ensures ConflictBetween(FirstWithId(ValidNormalized(localQuotes), s.id).value, s).fields.text
    ensures s in MergedQuotes(localQuotes, serverQuotes)
    ensures forall x :: x in MergedQuotes(localQuotes, serverQuotes) && x.id == s.id ==> x in ValidNormalized(serverQuotes)
  {
    LocalOnlyMembers(ValidNormalized(localQuotes), RawIds(serverQuotes));
    ConflictsCharacterised(ValidNormalized(localQuotes), ValidNormalized(serverQuotes));
    ValidNormalizedIds(serverQuotes);
  }

  /** Distinct ids among the records of qs. */
  ghost predicate DistinctIds(qs: seq<Quote>) {
    forall i, j :: 0 <= i < j < |qs| ==> qs[i].id != qs[j].id
  }

  lemma FirstInDistinctPrefix(a: seq<Quote>, b: seq<Quote>, s: Quote)
    requires s in a && DistinctIds(a)
    ensures FirstWithId(a + b, s.id) == Some(s)
  {
    var j :| 0 <= j < |a| && a[j] == s;
    var k := FindIndex(a + b, s.id);
    assert (a + b)[j] == s;
    assert k <= j;
    assert (a + b)[k] == a[k];
  }

  /**
   * Merging the merged list against the same server list again changes
   * nothing and reports no conflict, provided no valid record has a
   * whitespace-only author (normalizeQuote is not idempotent there) and the
   * valid server records carry distinct ids.
   */
  lemma MergeIdempotent(localQuotes: seq<Quote>, serverQuotes: seq<Quote>)
    requires forall q :: q in localQuotes && ValidateQuote(q) ==> !WhitespaceOnlyAuthor(q)
    requires forall q :: q in serverQuotes && ValidateQuote(q) ==> !WhitespaceOnlyAuthor(q)
    requires DistinctIds(ValidNormalized(serverQuotes))
    ensures var merged := MergedQuotes(localQuotes, serverQuotes);
      MergedQuotes(merged, serverQuotes) == merged && MergeConflicts(merged, serverQuotes) == []
  {
    var ids := RawIds(serverQuotes);
    var vs, vl := ValidNormalized(serverQuotes), ValidNormalized(localQuotes);
    var kept := LocalOnly(vl, ids);
    var merged := vs + kept;
    assert merged == MergedQuotes(localQuotes, serverQuotes);
    LocalOnlyMembers(vl, ids);
    forall x | x in merged ensures x.author != Some("") {
      if x in vs {
        ValidNormalizedMembers(serverQuotes, x);
        var q :| q in serverQuotes && ValidateQuote(q) && NormalizeQuote(q) == x;
        NormalizedAuthorEmpty(q);
      } else {
        ValidNormalizedMembers(localQuotes, x);
        var q :| q in localQuotes && ValidateQuote(q) && NormalizeQuote(q) == x;
        NormalizedAuthorEmpty(q);
      }
    }
    NormalListIsFixed(merged);
    LocalOnlyAppend(vs, kept, ids);
    ValidNormalizedIds(serverQuotes);
    LocalOnlyDropsAll(vs, ids);
    LocalOnlyKeepsAll(kept, ids);
    assert LocalOnly(merged, ids) == kept;
    assert MergedQuotes(merged, serverQuotes) == vs + LocalOnly(merged, ids);
    forall s | s in vs ensures FirstWithId(merged, s.id) == Some(s) {
      FirstInDistinctPrefix(vs, kept, s);
    }
    SelfFirstNoConflicts(merged, vs);
    assert MergeConflicts(merged, serverQuotes) == Conflicts(merged, vs);
  }

  /** A list of valid, normal records with non-empty authors is its own validation and normalisation. */
  lemma {:induction false} NormalListIsFixed(qs: seq<Quote>)
    requires forall x :: x in qs ==> ValidateQuote(x) && IsNormal(x) && x.author != Some("")
    ensures ValidNormalized(qs) == qs
  {
    if qs != [] {
      var init, q := qs[..|qs| - 1], qs[|qs| - 1];
      assert qs == init + [q];
      NormalListIsFixed(init);
      NormalFixedPoint(q);
      assert ValidNormalized(qs) == ValidNormalized(init) + [NormalizeQuote(q)];
    }
  }
}

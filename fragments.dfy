/**
 * What the three loader queries of nntmux/NZBMultiGroup.php yield for one release
 * (collections, their binaries, the binaries' parts), and the NZB document and guid the
 * writer is meant to produce from them (nntmux/NZBMultiGroup.php:133-173).
 *
 * The SQL itself is not modelled: the nesting of the rows stands for the joins on
 * collection and binary ids, and the order of the rows is the order the queries return.
 */
module Fragments {
  import opened Options
  import opened Decimal
  import Xref
  import opened NzbDocument

  /** A query result: the rows, or the `false` queryDirect returns when the query fails. */
  datatype Rows<T> = Rows(items: seq<T>) | NotTraversable

  datatype Part = Part(messageId: string, size: nat, partNumber: nat)
  datatype Binary = Binary(name: string, totalParts: nat, parts: Rows<Part>)
  datatype Collection = Collection(fromName: string, udate: nat, xref: string, binaries: Rows<Binary>)

  function Items<T>(r: Rows<T>): seq<T> {
    if r.Rows? then r.items else []
  }

  /** Every parts query of the binaries succeeded. */
  predicate BinariesLoad(bs: seq<Binary>) {
    forall j :: 0 <= j < |bs| ==> bs[j].parts.Rows?
  }

  /** Every binaries query of the collection and every parts query below it succeeded. */
  predicate CollectionLoads(c: Collection) {
    c.binaries.Rows? && BinariesLoad(c.binaries.items)
  }

  /** Every query the writer issues for the release succeeds. */
  predicate Loads(collections: Rows<Collection>) {
    collections.Rows? && forall i :: 0 <= i < |collections.items| ==> CollectionLoads(collections.items[i])
  }

  // ---------------------------------------------------------------- subject line

  /**
   * The subject line of a binary's file (nntmux/NZBMultiGroup.php:147): the binary's name, then
   * "(1/", the declared part count in decimal, and ")".
   */
  function Subject(name: string, totalParts: nat): (s: string)
    ensures |s| > |name| && s[..|name|] == name && s[|s| - 1] == ')'
    ensures s[|name|] == '(' && forall j :: |name| < j < |s| ==> s[j] != '('
  {
    name + "(1/" + NatToString(totalParts) + ")"
  }

  /** Reads a subject line back: the name before the last '(' and the declared part count. */
  function ParseSubject(subject: string): Option<(string, nat)> {
    match Xref.LastIndex(subject, '(')
    case None => None
    case Some(k) =>
      var tail := subject[k..];
      if |tail| >= 5 && tail[..3] == "(1/" && tail[|tail| - 1] == ')' && AllDigits(tail[3..|tail| - 1])
      then Some((subject[..k], DigitsValue(tail[3..|tail| - 1])))
      else None
  }

  /**
   * The subject line gives back the binary name and the declared part count exactly, whatever
   * the name holds; the count is the declared one, not the number of parts present.
   */
  lemma SubjectRoundTrip(name: string, totalParts: nat)
    ensures ParseSubject(Subject(name, totalParts)) == Some((name, totalParts))
  {
    var digits := NatToString(totalParts);
    var s := Subject(name, totalParts);
    var k := |name|;
    var lp := Xref.LastIndex(s, '(');
    assert lp.Some? && lp.value >= k;
    assert lp.value == k;
    var tail := s[k..];
    assert tail == "(1/" + digits + ")";
    assert tail[3..|tail| - 1] == digits;
    assert s[..k] == name;
    NatToStringValue(totalParts);
  }

  // ---------------------------------------------------------------- the expected document

  function SegmentOf(p: Part): Segment {
    Segment(NatToString(p.size), NatToString(p.partNumber), p.messageId)
  }

  function SegmentsOf(parts: seq<Part>): seq<Segment> {
    seq(|parts|, k requires 0 <= k < |parts| => SegmentOf(parts[k]))
  }

  /** The `file` entry written for binary `b` of collection `c` (nntmux/NZBMultiGroup.php:147-171). */
  function FileOf(c: Collection, b: Binary): NzbFile {
    NzbFile(c.fromName, NatToString(c.udate), Subject(b.name, b.totalParts),
            Xref.Groups(c.xref), SegmentsOf(Items(b.parts)))
  }

  /** One file per binary, in binary order. */
  function BinaryFiles(c: Collection, bs: seq<Binary>): seq<NzbFile> {
    if bs == [] then [] else BinaryFiles(c, bs[..|bs| - 1]) + [FileOf(c, bs[|bs| - 1])]
  }

  function CollectionFiles(c: Collection): seq<NzbFile> {
    BinaryFiles(c, Items(c.binaries))
  }

  lemma {:induction false} BinaryFilesAt(c: Collection, bs: seq<Binary>)
    ensures |BinaryFiles(c, bs)| == |bs|
    ensures forall j :: 0 <= j < |bs| ==> BinaryFiles(c, bs)[j] == FileOf(c, bs[j])
  {
    if bs != [] {
      var init := bs[..|bs| - 1];
      BinaryFilesAt(c, init);
      assert forall j :: 0 <= j < |init| ==> init[j] == bs[j];
    }
  }

  /** The files of all collections, collection after collection. */
  function Files(cs: seq<Collection>): (files: seq<NzbFile>)
    ensures |files| == BinaryCount(cs)
  {
    if cs == [] then []
    else
      BinaryFilesAt(cs[|cs| - 1], Items(cs[|cs| - 1].binaries));
      Files(cs[..|cs| - 1]) + CollectionFiles(cs[|cs| - 1])
  }

  /** The document written for a release whose queries all succeed. */
  function Nzb(generator: string, category: string, name: string, cs: seq<Collection>): (d: NzbDoc)
    ensures d.generator == generator && d.category == category && d.name == name
    ensures |d.files| == BinaryCount(cs)
  {
    NzbDoc(generator, category, name, Files(cs))
  }

  /** Number of binaries over all collections. */
  function BinaryCount(cs: seq<Collection>): nat {
    if cs == [] then 0 else BinaryCount(cs[..|cs| - 1]) + |Items(cs[|cs| - 1].binaries)|
  }

  lemma {:induction false} FilesAppend(a: seq<Collection>, b: seq<Collection>)
    ensures Files(a + b) == Files(a) + Files(b)
    decreases |b|
  {
    if b == [] {
      assert a + b == a;
    } else {
      var ab, b', last := a + b, b[..|b| - 1], b[|b| - 1];
      assert ab[..|ab| - 1] == a + b' && ab[|ab| - 1] == last;
      FilesSnoc(ab);
      FilesAppend(a, b');
      FilesSnoc(b);
      AppendRegroup(Files(a), Files(b'), CollectionFiles(last), Files(b));
    }
  }

  /** The files of a non-empty run: those before its last collection, then that collection's. */
  lemma FilesSnoc(cs: seq<Collection>)
    requires cs != []
    ensures Files(cs) == Files(cs[..|cs| - 1]) + CollectionFiles(cs[|cs| - 1])
  {
  }

  /**
   * Binary j of collection i is written as the file at position |Files(cs[..i])| + j, after the
   * files of all earlier collections and earlier binaries: its poster and date are the
   * collection's, its subject names the binary and its declared part count, its groups are the
   * collection's cross-reference groups, and it has one segment per part, in part order.
   */
  lemma {:induction false} FileOfBinary(cs: seq<Collection>, i: nat, j: nat)
    requires i < |cs| && j < |Items(cs[i].binaries)|
    ensures |Files(cs[..i])| + j < |Files(cs)|
    ensures var f := Files(cs)[|Files(cs[..i])| + j]; var c := cs[i]; var b := Items(c.binaries)[j];
      var parts := Items(b.parts);
      f.poster == c.fromName
      && f.date == NatToString(c.udate)
      && ParseSubject(f.subject) == Some((b.name, b.totalParts))
      && f.groups == Xref.Groups(c.xref)
      && |f.segments| == |parts|
      && (forall k :: 0 <= k < |parts| ==>
            f.segments[k] == Segment(NatToString(parts[k].size), NatToString(parts[k].partNumber), parts[k].messageId))
  {
    FileAt(cs, i, j);
    FileOfFields(cs[i], Items(cs[i].binaries)[j]);
  }

  lemma {:induction false} FileAt(cs: seq<Collection>, i: nat, j: nat)
    requires i < |cs| && j < |Items(cs[i].binaries)|
    ensures |Files(cs[..i])| + j < |Files(cs)|
    ensures Files(cs)[|Files(cs[..i])| + j] == FileOf(cs[i], Items(cs[i].binaries)[j])
  {
    FileInCollection(cs, i, j);
    BinaryFilesAt(cs[i], Items(cs[i].binaries));
  }

  lemma {:induction false} FileInCollection(cs: seq<Collection>, i: nat, j: nat)
    requires i < |cs| && j < |Items(cs[i].binaries)|
    ensures j < |CollectionFiles(cs[i])|
    ensures |Files(cs[..i])| + j < |Files(cs)|
    ensures Files(cs)[|Files(cs[..i])| + j] == CollectionFiles(cs[i])[j]
  {
    FilesAround(cs, i);
    BinaryFilesAt(cs[i], Items(cs[i].binaries));
    ConcatAt(Files(cs[..i]), CollectionFiles(cs[i]), Files(cs[i + 1..]), j);
  }

  lemma ConcatAt<T>(before: seq<T>, here: seq<T>, after: seq<T>, j: nat)
    requires j < |here|
    ensures (before + here + after)[|before| + j] == here[j]
  {
  }

  /** The `file` entry of one binary, field by field. */
  lemma FileOfFields(c: Collection, b: Binary)
    ensures var f := FileOf(c, b); var parts := Items(b.parts);
      f.poster == c.fromName
      && f.date == NatToString(c.udate)
      && ParseSubject(f.subject) == Some((b.name, b.totalParts))
      && f.groups == Xref.Groups(c.xref)
      && |f.segments| == |parts|
      && forall k :: 0 <= k < |parts| ==>
           f.segments[k] == Segment(NatToString(parts[k].size), NatToString(parts[k].partNumber), parts[k].messageId)
  {
    SubjectRoundTrip(b.name, b.totalParts);
  }

  lemma {:induction false} FilesSingleton(c: Collection)
    ensures Files([c]) == CollectionFiles(c)
  {
    assert [c][..0] == [];
  }

  lemma {:induction false} FilesSplit(before: seq<Collection>, c: Collection, after: seq<Collection>)
    ensures Files(before + [c] + after) == Files(before) + CollectionFiles(c) + Files(after)
  {
    FilesAppend(before + [c], after);
    FilesAppend(before, [c]);
    FilesSingleton(c);
  }

  /** The files of a collection sit between those of the collections before and after it. */
  lemma {:induction false} FilesAround(cs: seq<Collection>, i: nat)
    requires i < |cs|
    ensures Files(cs) == Files(cs[..i]) + CollectionFiles(cs[i]) + Files(cs[i + 1..])
  {
    assert cs == cs[..i] + [cs[i]] + cs[i + 1..];
    FilesSplit(cs[..i], cs[i], cs[i + 1..]);
  }

  // ---------------------------------------------------------------- the document guid

  /** Message ids of all segments of the files, in document order. */
  function MessageIds(files: seq<NzbFile>): seq<string> {
    if files == [] then []
    else MessageIds(files[..|files| - 1]) + SegmentIds(files[|files| - 1].segments)
  }

  function SegmentIds(segments: seq<Segment>): seq<string> {
    seq(|segments|, k requires 0 <= k < |segments| => segments[k].messageId)
  }

  /**
   * The writer's guid accumulator (nntmux/NZBMultiGroup.php:113, 161-163): it starts as ''
   * and takes each message id in turn for as long as it is still ''.
   */
  function FirstNonEmpty(ids: seq<string>): (r: string)
    ensures r == "" || r in ids
  {
    if ids == [] then ""
    else
      var g := FirstNonEmpty(ids[..|ids| - 1]);
      if g == "" then ids[|ids| - 1] else g
  }

  /** The guid recorded for a document: its first non-empty segment message id, or ''. */
  function NzbGuid(files: seq<NzbFile>): string {
    FirstNonEmpty(MessageIds(files))
  }

  /**
   * The accumulator holds the first non-empty id, whatever follows it. Leading empty ids are
   * skipped: ["", "m2", "m1"] gives "m2".
   */
  lemma {:induction false} FirstNonEmptyIsFirst(ids: seq<string>, k: nat)
    requires k < |ids| && ids[k] != ""
    requires forall j :: 0 <= j < k ==> ids[j] == ""
    ensures FirstNonEmpty(ids) == ids[k]
  {
    if k < |ids| - 1 {
      var init := ids[..|ids| - 1];
      FirstNonEmptyIsFirst(init, k);
    } else {
      FirstNonEmptyAllEmpty(ids[..|ids| - 1]);
    }
  }

  /** The accumulator stays '' exactly when every id is ''. */
  lemma {:induction false} FirstNonEmptyAllEmpty(ids: seq<string>)
    ensures FirstNonEmpty(ids) == "" <==> forall j :: 0 <= j < |ids| ==> ids[j] == ""
  {
    if ids != [] {
      var init := ids[..|ids| - 1];
      FirstNonEmptyAllEmpty(init);
      assert forall j :: 0 <= j < |init| ==> init[j] == ids[j];
    }
  }

  /** Once the accumulator is non-empty it never changes. */
  lemma {:induction false} FirstNonEmptyStable(a: seq<string>, b: seq<string>)
    requires FirstNonEmpty(a) != ""
    ensures FirstNonEmpty(a + b) == FirstNonEmpty(a)
    decreases |b|
  {
    if b == [] {
      assert a + b == a;
    } else {
      var b' := b[..|b| - 1];
      assert (a + b)[..|a + b| - 1] == a + b';
      FirstNonEmptyStable(a, b');
    }
  }
}

/**
 * The NZBMultiGroup writer of nntmux/NZBMultiGroup.php: the split level chosen at
 * construction, the generator comment prepared by initiateForMgrWrite, and
 * writeMgrNZBforReleaseId, which streams a release's collections, binaries and parts into
 * an XML writer, records the first non-empty message id as the document guid, writes the
 * compressed file and then updates the database.
 *
 * The database, the file system and the path builder are outside the model: what they
 * answer is passed in (the query rows, whether the sink opens, whether the file exists
 * afterwards, the directory the path builder returns), and what is done to them is
 * recorded, in order, as a log of `Effect`s.
 */
module NzbMultiGroup {
  import opened Options
  import opened Decimal
  import opened NzbDocument
  import opened Fragments
  import Xref

  // ---------------------------------------------------------------- construction

  /**
   * PHP's empty() on what Settings::value returns: null, '' and '0' are empty. Read another
   * way: null, or a string of at most one character that is all zeros.
   */
  predicate IsEmptySetting(setting: Option<string>): (empty: bool)
    ensures empty <==> match setting
      case None => true
      case Some(s) => |s| < 2 && forall k :: 0 <= k < |s| ==> s[k] == '0'
  {
    setting.None? || setting.value == "" || setting.value == "0"
  }

  /** The split level (nntmux/NZBMultiGroup.php:51-52): the setting when set, otherwise 1. */
  function SplitLevel(setting: Option<string>): (level: string)
    ensures !IsEmptySetting(Some(level))
    ensures !IsEmptySetting(setting) ==> level == setting.value
    ensures IsEmptySetting(setting) ==> level == "1"
  {
    if IsEmptySetting(setting) then "1" else setting.value
  }

  // ---------------------------------------------------------------- the XML writer

  /** The XMLWriter memory buffer: every call is appended, nothing is ever taken back. */
  class XmlWriter {
    var events: seq<Event>

    constructor OpenMemory()
      ensures events == []
    {
      events := [];
    }

    method StartDocument(version: string, encoding: string)
      modifies this
      ensures events == old(events) + [Event.StartDocument(version, encoding)]
    {
      events := events + [Event.StartDocument(version, encoding)];
    }

    method StartDtd(qualifiedName: string, publicId: string, systemId: string)
      modifies this
      ensures events == old(events) + [Event.StartDtd(qualifiedName, publicId, systemId)]
    {
      events := events + [Event.StartDtd(qualifiedName, publicId, systemId)];
    }

    method EndDtd()
      modifies this
      ensures events == old(events) + [Event.EndDtd]
    {
      events := events + [Event.EndDtd];
    }

    method WriteComment(content: string)
      modifies this
      ensures events == old(events) + [Event.Comment(content)]
    {
      events := events + [Event.Comment(content)];
    }

    method StartElement(name: string)
      modifies this
      ensures events == old(events) + [Event.StartElement(name)]
    {
      events := events + [Event.StartElement(name)];
    }

    method WriteAttribute(name: string, value: string)
      modifies this
      ensures events == old(events) + [Event.Attribute(name, value)]
    {
      events := events + [Event.Attribute(name, value)];
    }

    method Text(content: string)
      modifies this
      ensures events == old(events) + [Event.Text(content)]
    {
      events := events + [Event.Text(content)];
    }

    method EndElement()
      modifies this
      ensures events == old(events) + [Event.EndElement]
    {
      events := events + [Event.EndElement];
    }

    /** writeElement: an element holding only text. */
    method WriteElement(name: string, content: string)
      modifies this
      ensures events == old(events) + [Event.StartElement(name), Event.Text(content), Event.EndElement]
    {
      events := events + [Event.StartElement(name), Event.Text(content), Event.EndElement];
    }

    method EndDocument()
      modifies this
      ensures events == old(events) + [Event.EndDocument]
    {
      events := events + [Event.EndDocument];
    }
  }

  // ---------------------------------------------------------------- building the document

  /** What the build hands to the commit stage: the writer's output and the guid found. */
  datatype Built = Built(document: seq<Event>, guid: string)

  /** The events of one more part. */
  lemma SegmentEventsStep(base: seq<Event>, parts: seq<Part>, k: nat)
    requires k < |parts|
    ensures base + SegmentsEvents(SegmentsOf(parts[..k])) + SegmentEvents(SegmentOf(parts[k]))
      == base + SegmentsEvents(SegmentsOf(parts[..k + 1]))
  {
    assert SegmentsOf(parts[..k + 1]) == SegmentsOf(parts[..k]) + [SegmentOf(parts[k])];
    SegmentsEventsAppend(SegmentsOf(parts[..k]), [SegmentOf(parts[k])]);
    assert SegmentsEvents([SegmentOf(parts[k])]) == SegmentEvents(SegmentOf(parts[k])) + SegmentsEvents([]);
  }

  /** The accumulator after one more part. */
  lemma SegmentGuidStep(seen: seq<string>, parts: seq<Part>, k: nat)
    requires k < |parts|
    ensures FirstNonEmpty(seen + SegmentIds(SegmentsOf(parts[..k + 1])))
      == var g := FirstNonEmpty(seen + SegmentIds(SegmentsOf(parts[..k])));
         if g == "" then parts[k].messageId else g
  {
    var ids := seen + SegmentIds(SegmentsOf(parts[..k]));
    assert seen + SegmentIds(SegmentsOf(parts[..k + 1])) == ids + [parts[k].messageId];
    GuidStep(ids, parts[k].messageId);
  }

  /** One more message id seen by the accumulator. */
  lemma GuidStep(ids: seq<string>, id: string)
    ensures FirstNonEmpty(ids + [id]) == if FirstNonEmpty(ids) == "" then id else FirstNonEmpty(ids)
  {
    assert (ids + [id])[..|ids|] == ids;
  }

  /** The events of one more file. */
  lemma FilesEventsStep(done: seq<NzbFile>, f: NzbFile)
    ensures FilesEvents(done + [f]) == FilesEvents(done) + FileEvents(f)
  {
    FilesEventsAppend(done, [f]);
    assert [f][1..] == [];
    assert FilesEvents([f]) == FileEvents(f) + FilesEvents([]);
  }

  /** The message ids of one more file. */
  lemma MessageIdsStep(done: seq<NzbFile>, f: NzbFile)
    ensures MessageIds(done + [f]) == MessageIds(done) + SegmentIds(f.segments)
  {
    assert (done + [f])[..|done|] == done;
  }

  /** The calls made for one binary, grouped as FileEvents groups them. */
  lemma FileAssembly(e0: seq<Event>, e1: seq<Event>, e2: seq<Event>, e3: seq<Event>, e4: seq<Event>,
                     e5: seq<Event>, f: NzbFile)
    requires e1 == e0 + FileOpenEvents(f)
    requires e2 == e1 + GroupsEvents(f.groups)
    requires e3 == e2 + [Event.EndElement] + [Event.StartElement("segments")]
    requires e4 == e3 + SegmentsEvents(f.segments)
    requires e5 == e4 + [Event.EndElement] + [Event.EndElement]
    ensures e5 == e0 + FileEvents(f)
  {
    var a, b, d := FileOpenEvents(f), GroupsEvents(f.groups), SegmentsEvents(f.segments);
    var open := [Event.EndElement, Event.StartElement("segments")];
    var close := [Event.EndElement, Event.EndElement];
    assert e3 == e2 + open;
    assert e5 == e4 + close;
    AppendRegroup(e0, a, b, a + b);
    AppendRegroup(e0, a + b, open, a + b + open);
    AppendRegroup(e0, a + b + open, d, a + b + open + d);
    AppendRegroup(e0, a + b + open + d, close, a + b + open + d + close);
  }

  /** The message ids of two runs of files. */
  lemma {:induction false} MessageIdsAppend(a: seq<NzbFile>, b: seq<NzbFile>)
    ensures MessageIds(a + b) == MessageIds(a) + MessageIds(b)
  {
    if b == [] {
      assert a + b == a;
    } else {
      var b', last := b[..|b| - 1], b[|b| - 1];
      calc {
        MessageIds(a + b);
        { assert (a + b)[..|a + b| - 1] == a + b' && (a + b)[|a + b| - 1] == last; }
        MessageIds(a + b') + SegmentIds(last.segments);
        { MessageIdsAppend(a, b'); }
        MessageIds(a) + MessageIds(b') + SegmentIds(last.segments);
        MessageIds(a) + MessageIds(b);
      }
    }
  }

  /** State after one more binary of a collection has been written. */
  lemma BinaryStep(seen: seq<string>, base: seq<Event>, c: Collection, bs: seq<Binary>, j: nat)
    requires j < |bs|
    ensures BinaryFiles(c, bs[..j + 1]) == BinaryFiles(c, bs[..j]) + [FileOf(c, bs[j])]
    ensures base + FilesEvents(BinaryFiles(c, bs[..j])) + FileEvents(FileOf(c, bs[j]))
      == base + FilesEvents(BinaryFiles(c, bs[..j + 1]))
    ensures seen + MessageIds(BinaryFiles(c, bs[..j])) + SegmentIds(FileOf(c, bs[j]).segments)
      == seen + MessageIds(BinaryFiles(c, bs[..j + 1]))
  {
    var done := BinaryFiles(c, bs[..j]);
    var f := FileOf(c, bs[j]);
    BinaryFilesStep(c, bs, j);
    FilesEventsStep(done, f);
    AppendRegroup(base, FilesEvents(done), FileEvents(f), FilesEvents(done + [f]));
    MessageIdsStep(done, f);
    AppendRegroup(seen, MessageIds(done), SegmentIds(f.segments), MessageIds(done + [f]));
  }

  /** The files of one more binary. */
  lemma BinaryFilesStep(c: Collection, bs: seq<Binary>, j: nat)
    requires j < |bs|
    ensures BinaryFiles(c, bs[..j + 1]) == BinaryFiles(c, bs[..j]) + [FileOf(c, bs[j])]
  {
    assert bs[..j + 1][..j] == bs[..j];
  }

  /** The files of one more collection. */
  lemma FilesStep(cs: seq<Collection>, i: nat)
    requires i < |cs|
    ensures Files(cs[..i + 1]) == Files(cs[..i]) + CollectionFiles(cs[i])
  {
    assert cs[..i + 1][..i] == cs[..i];
  }

  /** The parts query of one more binary succeeded. */
  lemma BinariesLoadStep(bs: seq<Binary>, j: nat)
    requires j < |bs|
    requires BinariesLoad(bs[..j]) && bs[j].parts.Rows?
    ensures BinariesLoad(bs[..j + 1])
  {
    assert forall k :: 0 <= k < j ==> bs[..j][k] == bs[..j + 1][k];
  }

  /** The queries of one more collection succeeded. */
  lemma LoadsStep(cs: seq<Collection>, i: nat)
    requires i < |cs|
    requires Loads(Rows(cs[..i])) && CollectionLoads(cs[i])
    ensures Loads(Rows(cs[..i + 1]))
  {
    assert forall k :: 0 <= k < i ==> cs[..i][k] == cs[..i + 1][k];
  }

  /** The writer's buffer after one more collection. */
  lemma CollectionEvents(head: seq<Event>, events: seq<Event>, cs: seq<Collection>, i: nat)
    requires i < |cs|
    requires events == head + FilesEvents(Files(cs[..i])) + FilesEvents(CollectionFiles(cs[i]))
    ensures events == head + FilesEvents(Files(cs[..i + 1]))
  {
    FilesStep(cs, i);
    EventsJoin(head, Files(cs[..i]), CollectionFiles(cs[i]));
  }

  /** The events of two runs of files, after a common head, are those of the joined run. */
  lemma EventsJoin(head: seq<Event>, a: seq<NzbFile>, b: seq<NzbFile>)
    ensures head + FilesEvents(a) + FilesEvents(b) == head + FilesEvents(a + b)
  {
    FilesEventsAppend(a, b);
    AppendRegroup(head, FilesEvents(a), FilesEvents(b), FilesEvents(a + b));
  }

  /** The guid accumulator after one more collection. */
  lemma CollectionGuid(guid: string, cs: seq<Collection>, i: nat)
    requires i < |cs|
    requires guid == FirstNonEmpty(MessageIds(Files(cs[..i])) + MessageIds(CollectionFiles(cs[i])))
    ensures guid == FirstNonEmpty(MessageIds(Files(cs[..i + 1])))
  {
    FilesStep(cs, i);
    MessageIdsAppend(Files(cs[..i]), CollectionFiles(cs[i]));
  }

  /** The calls of the whole build, grouped as Serialize groups them. */
  lemma DocumentAssembly(head: seq<Event>, comment: string, cTitle: string, name: string, cs: seq<Collection>)
    requires head == PrologEvents(comment) + HeadEvents(cTitle, name)
    ensures head + FilesEvents(Files(cs)) + [Event.EndElement] + [Event.EndDocument]
      == Serialize(Nzb(comment, cTitle, name, cs))
  {
    assert [Event.EndElement] + [Event.EndDocument] == [Event.EndElement, Event.EndDocument];
  }

  /** The document prolog up to the root element's namespace (nntmux/NZBMultiGroup.php:115-121). */
  method WriteProlog(xw: XmlWriter, comment: string)
    modifies xw
    ensures xw.events == old(xw.events) + PrologEvents(comment)
  {
    xw.StartDocument("1.0", "UTF-8");
    xw.StartDtd(DtdName, DtdPublic, DtdSystem);
    xw.EndDtd();
    xw.WriteComment(comment);
    xw.StartElement("nzb");
    xw.WriteAttribute("xmlns", XmlNamespace);
  }

  /** The `head` element with its category and name `meta` entries (nntmux/NZBMultiGroup.php:122-131). */
  method WriteHead(xw: XmlWriter, cTitle: string, name: string)
    modifies xw
    ensures xw.events == old(xw.events) + HeadEvents(cTitle, name)
  {
    xw.StartElement("head");
    xw.StartElement("meta");
    xw.WriteAttribute("type", "category");
    xw.Text(cTitle);
    xw.EndElement();
    xw.StartElement("meta");
    xw.WriteAttribute("type", "name");
    xw.Text(name);
    xw.EndElement();
    xw.EndElement();
  }

  /** The `group` elements of one file (nntmux/NZBMultiGroup.php:152-158). */
  method WriteGroups(xw: XmlWriter, groups: seq<string>)
    modifies xw
    ensures xw.events == old(xw.events) + GroupsEvents(groups)
  {
    var g := 0;
    while g < |groups|
      invariant 0 <= g <= |groups|
      invariant xw.events == old(xw.events) + GroupsEvents(groups[..g])
    {
      xw.WriteElement("group", groups[g]);
      GroupsEventsAppend(groups[..g], [groups[g]]);
      assert groups[..g + 1] == groups[..g] + [groups[g]];
      g := g + 1;
    }
    assert groups[..g] == groups;
  }

  /** One `segment` element (nntmux/NZBMultiGroup.php:164-169). */
  method WriteSegment(xw: XmlWriter, part: Part)
    modifies xw
    ensures xw.events == old(xw.events) + SegmentEvents(SegmentOf(part))
  {
    xw.StartElement("segment");
    xw.WriteAttribute("bytes", NatToString(part.size));
    xw.WriteAttribute("number", NatToString(part.partNumber));
    xw.Text(part.messageId);
    xw.EndElement();
  }

  /**
   * The `segment` elements of one binary (nntmux/NZBMultiGroup.php:159-170), feeding each
   * message id to the guid accumulator; `seen` are the ids the accumulator has had so far.
   */
  method WriteSegments(xw: XmlWriter, parts: seq<Part>, guid: string, ghost seen: seq<string>)
    returns (guid': string)
    requires guid == FirstNonEmpty(seen)
    modifies xw
    ensures xw.events == old(xw.events) + SegmentsEvents(SegmentsOf(parts))
    ensures guid' == FirstNonEmpty(seen + SegmentIds(SegmentsOf(parts)))
  {
    guid' := guid;
    var k := 0;
    assert seen + SegmentIds(SegmentsOf(parts[..0])) == seen;
    while k < |parts|
      invariant 0 <= k <= |parts|
      invariant xw.events == old(xw.events) + SegmentsEvents(SegmentsOf(parts[..k]))
      invariant guid' == FirstNonEmpty(seen + SegmentIds(SegmentsOf(parts[..k])))
    {
      var part := parts[k];
      SegmentGuidStep(seen, parts, k);
      SegmentEventsStep(old(xw.events), parts, k);
      if guid' == "" {
        guid' := part.messageId;
      }
      WriteSegment(xw, part);
      k := k + 1;
    }
    assert parts[..k] == parts;
  }

  /** The opening of the `file` element of binary `b` (nntmux/NZBMultiGroup.php:147-152). */
  method OpenFile(xw: XmlWriter, c: Collection, b: Binary)
    modifies xw
    ensures xw.events == old(xw.events) + FileOpenEvents(FileOf(c, b))
  {
    var subject := Subject(b.name, b.totalParts);
    xw.StartElement("file");
    xw.WriteAttribute("poster", c.fromName);
    xw.WriteAttribute("date", NatToString(c.udate));
    xw.WriteAttribute("subject", subject);
    xw.StartElement("groups");
  }

  /** The `file` element of binary `b` in collection `c` (nntmux/NZBMultiGroup.php:147-171). */
  method WriteFile(xw: XmlWriter, c: Collection, b: Binary, guid: string, ghost seen: seq<string>)
    returns (guid': string)
    requires b.parts.Rows?
    requires guid == FirstNonEmpty(seen)
    modifies xw
    ensures xw.events == old(xw.events) + FileEvents(FileOf(c, b))
    ensures guid' == FirstNonEmpty(seen + SegmentIds(FileOf(c, b).segments))
  {
    ghost var f := FileOf(c, b);
    ghost var e0 := xw.events;
    OpenFile(xw, c, b);
    ghost var e1 := xw.events;
    WriteGroups(xw, Xref.Groups(c.xref));
    ghost var e2 := xw.events;
    xw.EndElement();
    xw.StartElement("segments");
    ghost var e3 := xw.events;
    guid' := WriteSegments(xw, b.parts.items, guid, seen);
    ghost var e4 := xw.events;
    xw.EndElement();
    xw.EndElement();
    FileAssembly(e0, e1, e2, e3, e4, xw.events, f);
  }

  /**
   * The files of one collection (nntmux/NZBMultiGroup.php:134-172): `loaded` is false as soon
   * as the parts query of one of its binaries fails.
   */
  method WriteCollection(xw: XmlWriter, c: Collection, guid: string, ghost seen: seq<string>)
    returns (loaded: bool, guid': string)
    requires c.binaries.Rows?
    requires guid == FirstNonEmpty(seen)
    modifies xw
    ensures loaded <==> CollectionLoads(c)
    ensures loaded ==> xw.events == old(xw.events) + FilesEvents(CollectionFiles(c))
    ensures loaded ==> guid' == FirstNonEmpty(seen + MessageIds(CollectionFiles(c)))
  {
    var bs := c.binaries.items;
    guid' := guid;
    var j := 0;
    ghost var base := xw.events;
    assert seen + MessageIds(BinaryFiles(c, bs[..0])) == seen;
    while j < |bs|
      invariant 0 <= j <= |bs|
      invariant BinariesLoad(bs[..j])
      invariant xw.events == base + FilesEvents(BinaryFiles(c, bs[..j]))
      invariant guid' == FirstNonEmpty(seen + MessageIds(BinaryFiles(c, bs[..j])))
    {
      if !bs[j].parts.Rows? {
        return false, guid';
      }
      ghost var done := BinaryFiles(c, bs[..j]);
      BinaryStep(seen, base, c, bs, j);
      BinariesLoadStep(bs, j);
      guid' := WriteFile(xw, c, bs[j], guid', seen + MessageIds(done));
      j := j + 1;
    }
    assert bs[..j] == bs;
    loaded := true;
  }

  /**
   * Lines 102-175 of writeMgrNZBforReleaseId: the build fails exactly when one of the queries
   * it issues is not traversable; otherwise the writer holds the serialised NZB document of
   * the release (one file per binary, see Fragments.FileOfBinary) and the guid is the first
   * non-empty message id of that document.
   */
  method BuildMgrNzb(comment: string, name: string, cTitle: string, collections: Rows<Collection>)
    returns (r: Option<Built>)
    ensures r.Some? <==> Loads(collections)
    ensures r.Some? ==> r.value.document == Serialize(Nzb(comment, cTitle, name, collections.items))
    ensures r.Some? ==> r.value.guid == NzbGuid(Files(collections.items))
  {
    if !collections.Rows? {
      return None;
    }
    var xw := new XmlWriter.OpenMemory();
    var guid := "";
    WriteProlog(xw, comment);
    WriteHead(xw, cTitle, name);
    ghost var head := xw.events;
    assert head == PrologEvents(comment) + HeadEvents(cTitle, name);

    var cs := collections.items;
    var i := 0;
    while i < |cs|
      invariant 0 <= i <= |cs|
      invariant Loads(Rows(cs[..i]))
      invariant xw.events == head + FilesEvents(Files(cs[..i]))
      invariant guid == FirstNonEmpty(MessageIds(Files(cs[..i])))
    {
      if !cs[i].binaries.Rows? {
        return None;
      }
      var loaded;
      loaded, guid := WriteCollection(xw, cs[i], guid, MessageIds(Files(cs[..i])));
      if !loaded {
        return None;
      }
      LoadsStep(cs, i);
      CollectionEvents(head, xw.events, cs, i);
      CollectionGuid(guid, cs, i);
      i := i + 1;
    }
    assert cs[..i] == cs;
    assert collections == Rows(cs[..i]);
    xw.EndElement();
    xw.EndDocument();
    DocumentAssembly(head, comment, cTitle, name, cs);
    r := Some(Built(xw.events, guid));
  }

  // ---------------------------------------------------------------- commit stage

  /** What the writer does to the world outside it, in the order it does it. */
  datatype Effect =
    | OpenSink(path: string)
    | WriteSink(path: string, document: seq<Event>)
    | CloseSink(path: string)
    | ReportMissing(path: string)
    | UpdateStatus(releaseId: nat, nzbGuid: Option<string>)
    | DeleteStaging(releaseId: nat)
    | Chmod(path: string, mode: nat)

  /** An effect as a database mutation: itself when it is one, nothing otherwise. */
  function DbAction(e: Effect): seq<Effect> {
    if e.UpdateStatus? || e.DeleteStaging? then [e] else []
  }

  /** The database mutations among the effects, in order. */
  function DbActions(effects: seq<Effect>): seq<Effect> {
    if effects == [] then [] else DbAction(effects[0]) + DbActions(effects[1..])
  }

  lemma {:induction false} DbActionsAppend(a: seq<Effect>, b: seq<Effect>)
    ensures DbActions(a + b) == DbActions(a) + DbActions(b)
  {
    if a == [] {
      assert a + b == b;
    } else {
      calc {
        DbActions(a + b);
        { assert (a + b)[0] == a[0] && (a + b)[1..] == a[1..] + b; }
        DbAction(a[0]) + DbActions(a[1..] + b);
        { DbActionsAppend(a[1..], b); }
        DbAction(a[0]) + (DbActions(a[1..]) + DbActions(b));
        DbActions(a) + DbActions(b);
      }
    }
  }

  /** The file name the NZB is written to, inside the directory the path builder gives. */
  function NzbPath(dir: string, relGuid: string): (path: string)
    ensures |path| == |dir| + |relGuid| + 7
    ensures path[..|dir|] == dir && path[|dir|..|path| - 7] == relGuid && path[|path| - 7..] == ".nzb.gz"
  {
    dir + relGuid + ".nzb.gz"
  }

  /** The guid argument of the status update: present only when a non-empty guid was found. */
  function GuidUpdate(guid: string): (update: Option<string>)
    ensures update.None? <==> guid == ""
    ensures update.Some? ==> update.value == guid
  {
    if guid == "" then None else Some(guid)
  }

  /**
   * The commit stage (nntmux/NZBMultiGroup.php:176-207) as a state machine over the two
   * answers of the file system, giving the method's result and its effects.
   */
  function Commit(path: string, document: seq<Event>, relId: nat, guid: string, sinkOpens: bool, fileExists: bool)
    : (r: (bool, seq<Effect>))
    ensures r.0 <==> sinkOpens && fileExists
    ensures !sinkOpens ==> r.1 == []
    ensures sinkOpens ==> |r.1| >= 3 && r.1[..3] == [OpenSink(path), WriteSink(path, document), CloseSink(path)]
    ensures sinkOpens && !fileExists ==>
      r.1 == [OpenSink(path), WriteSink(path, document), CloseSink(path), ReportMissing(path)]
    ensures r.0 ==> r.1[|r.1| - 1] == Chmod(path, 0x1FF)
    ensures DbActions(r.1) == if r.0 then [UpdateStatus(relId, GuidUpdate(guid)), DeleteStaging(relId)] else []
  {
    var written := [OpenSink(path), WriteSink(path, document), CloseSink(path)];
    DbActionsOf(path, document, relId, guid);
    if !sinkOpens then (false, [])
    else if !fileExists then (false, written + [ReportMissing(path)])
    else (true, written + [UpdateStatus(relId, GuidUpdate(guid)), DeleteStaging(relId), Chmod(path, 0x1FF)])
  }

  lemma DbActionsOf(path: string, document: seq<Event>, relId: nat, guid: string)
    ensures DbActions([OpenSink(path), WriteSink(path, document), CloseSink(path)]) == []
    ensures DbActions([OpenSink(path), WriteSink(path, document), CloseSink(path)] + [ReportMissing(path)]) == []
    ensures DbActions([OpenSink(path), WriteSink(path, document), CloseSink(path)]
              + [UpdateStatus(relId, GuidUpdate(guid)), DeleteStaging(relId), Chmod(path, 0x1FF)])
            == [UpdateStatus(relId, GuidUpdate(guid)), DeleteStaging(relId)]
  {
    var written := [OpenSink(path), WriteSink(path, document), CloseSink(path)];
    var done := [UpdateStatus(relId, GuidUpdate(guid)), DeleteStaging(relId), Chmod(path, 0x1FF)];
    assert DbActions([CloseSink(path)]) == [];
    assert DbActions([WriteSink(path, document), CloseSink(path)]) == [];
    assert DbActions([Chmod(path, 0x1FF)]) == [];
    assert DbActions([DeleteStaging(relId), Chmod(path, 0x1FF)]) == [DeleteStaging(relId)];
    DbActionsAppend(written, [ReportMissing(path)]);
    assert DbActions([ReportMissing(path)]) == [];
    DbActionsAppend(written, done);
  }

  /** One NZBMultiGroup object: its settings and the effects it has had so far. */
  class NzbMultiGroup {
    var splitLevel: string
    /** Whether initiateForMgrWrite has set the three query templates and the comment. */
    var initiated: bool
    var commentString: string
    var effects: seq<Effect>

    /** `setting` is what Settings::value('..nzbsplitlevel') returns. */
    constructor(setting: Option<string>)
      ensures splitLevel == SplitLevel(setting)
      ensures !initiated && commentString == "" && effects == []
    {
      splitLevel := SplitLevel(setting);
      initiated := false;
      commentString := "";
      effects := [];
    }

    /**
     * The generator comment of initiateForMgrWrite (nntmux/NZBMultiGroup.php:81-85); the
     * version tag and the formatted date come from outside.
     */
    method InitiateForMgrWrite(versionTag: string, formattedDate: string)
      modifies this`commentString, this`initiated
      ensures initiated
      ensures commentString == "NZB Generated by: NNTmux " + versionTag + " " + formattedDate
    {
      initiated := true;
      commentString := "NZB Generated by: NNTmux " + versionTag + " " + formattedDate;
    }

    /**
     * The commit stage of writeMgrNZBforReleaseId (nntmux/NZBMultiGroup.php:176-207): write the
     * document, check that the file is there, then update the release and drop its staging rows.
     */
    method CommitNzb(path: string, document: seq<Event>, relId: nat, guid: string, sinkOpens: bool, fileExists: bool)
      returns (ok: bool)
      modifies this`effects
      ensures ok == Commit(path, document, relId, guid, sinkOpens, fileExists).0
      ensures effects == old(effects) + Commit(path, document, relId, guid, sinkOpens, fileExists).1
    {
      ghost var outcome := Commit(path, document, relId, guid, sinkOpens, fileExists);
      ghost var written := [OpenSink(path), WriteSink(path, document), CloseSink(path)];
      if !sinkOpens {
        ok := false;
      } else {
        effects := effects + [OpenSink(path), WriteSink(path, document), CloseSink(path)];
        assert effects == old(effects) + written;
        if !fileExists {
          effects := effects + [ReportMissing(path)];
          ok := false;
          assert outcome.1 == written + [ReportMissing(path)];
        } else {
          ghost var committed := [UpdateStatus(relId, GuidUpdate(guid)), DeleteStaging(relId), Chmod(path, 0x1FF)];
          effects := effects + [UpdateStatus(relId, GuidUpdate(guid))];
          effects := effects + [DeleteStaging(relId)];
          effects := effects + [Chmod(path, 0x1FF)];
          ok := true;
          assert effects == old(effects) + written + committed;
          assert outcome.1 == written + committed;
        }
      }
    }

    /**
     * writeMgrNZBforReleaseId. `buildNzbPath` is NZB::buildNZBPath (it gets the release guid
     * and the split level); `sinkOpens` is whether gzopen succeeds and `fileExists` whether
     * is_file finds the file afterwards. Before initiateForMgrWrite the collections query is
     * only the release id, which the database rejects, so nothing is written.
     */
    method WriteMgrNzbForReleaseId(relId: nat, relGuid: string, name: string, cTitle: string,
                                   collections: Rows<Collection>, buildNzbPath: (string, string) -> string,
                                   sinkOpens: bool, fileExists: bool)
      returns (ok: bool)
      modifies this`effects
      ensures !initiated ==> !ok && effects == old(effects)
      ensures !Loads(collections) ==> !ok && effects == old(effects)
      ensures initiated && Loads(collections) ==>
        var outcome := Commit(NzbPath(buildNzbPath(relGuid, splitLevel), relGuid),
                              Serialize(Nzb(commentString, cTitle, name, collections.items)), relId,
                              NzbGuid(Files(collections.items)), sinkOpens, fileExists);
        ok == outcome.0 && effects == old(effects) + outcome.1
    {
      if !initiated {
        return false;
      }
      var built := BuildMgrNzb(commentString, name, cTitle, collections);
      if built.None? {
        return false;
      }
      var document, guid := built.value.document, built.value.guid;
      var path := NzbPath(buildNzbPath(relGuid, splitLevel), relGuid);
      ok := CommitNzb(path, document, relId, guid, sinkOpens, fileExists);
    }
  }
}

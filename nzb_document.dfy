/**
 * The NZB document as the PHP XMLWriter receives it (nntmux/NZBMultiGroup.php:108-175):
 * one `Event` per writer call, the document tree those calls describe, the serialisation of
 * a tree into calls (`Serialize`), the reading of a call stream back into a tree (`Parse`),
 * and the stack of open elements the writer keeps (`Run`).
 *
 * Character escaping and indentation are the writer's business and are not modelled.
 */
module NzbDocument {
  import opened Options

  // NZB 1.1 document type and namespace (the NZB class constants used at
  // nntmux/NZBMultiGroup.php:116 and :121).
  const DtdName := "nzb"
  const DtdPublic := "-//newzBin//DTD NZB 1.1//EN"
  const DtdSystem := "http://www.newzbin.com/DTD/nzb/nzb-1.1.dtd"
  const XmlNamespace := "http://www.newzbin.com/DTD/2003/nzb"

  /** One call on the XML writer. `writeElement(n, t)` is StartElement(n), Text(t), EndElement. */
  datatype Event =
    | StartDocument(version: string, encoding: string)
    | StartDtd(qualifiedName: string, publicId: string, systemId: string)
    | EndDtd
    | Comment(content: string)
    | StartElement(name: string)
    | Attribute(name: string, value: string)
    | Text(content: string)
    | EndElement
    | EndDocument

  datatype Segment = Segment(bytes: string, number: string, messageId: string)

  datatype NzbFile = NzbFile(
    poster: string,
    date: string,
    subject: string,
    groups: seq<string>,
    segments: seq<Segment>)

  /** A whole document: the generator comment, the two head entries and the files. */
  datatype NzbDoc = NzbDoc(generator: string, category: string, name: string, files: seq<NzbFile>)

  // ---------------------------------------------------------------- serialisation

  function PrologEvents(generator: string): seq<Event> {
    [ StartDocument("1.0", "UTF-8"),
      StartDtd(DtdName, DtdPublic, DtdSystem),
      EndDtd,
      Comment(generator),
      StartElement("nzb"),
      Attribute("xmlns", XmlNamespace) ]
  }

  function MetaEvents(kind: string, value: string): seq<Event> {
    [StartElement("meta"), Attribute("type", kind), Text(value), EndElement]
  }

  function HeadEvents(category: string, name: string): seq<Event> {
    [StartElement("head")] + MetaEvents("category", category) + MetaEvents("name", name) + [EndElement]
  }

  function GroupEvents(group: string): seq<Event> {
    [StartElement("group"), Text(group), EndElement]
  }

  function GroupsEvents(groups: seq<string>): seq<Event> {
    if groups == [] then [] else GroupEvents(groups[0]) + GroupsEvents(groups[1..])
  }

  function SegmentEvents(s: Segment): seq<Event> {
    [StartElement("segment"), Attribute("bytes", s.bytes), Attribute("number", s.number),
     Text(s.messageId), EndElement]
  }

  function SegmentsEvents(segments: seq<Segment>): seq<Event> {
    if segments == [] then [] else SegmentEvents(segments[0]) + SegmentsEvents(segments[1..])
  }

  /** The calls that open a `file` element, up to and including the opening of `groups`. */
  function FileOpenEvents(f: NzbFile): seq<Event> {
    [StartElement("file"), Attribute("poster", f.poster), Attribute("date", f.date),
     Attribute("subject", f.subject), StartElement("groups")]
  }

  function FileEvents(f: NzbFile): seq<Event> {
    FileOpenEvents(f) + GroupsEvents(f.groups) + [EndElement, StartElement("segments")]
    + SegmentsEvents(f.segments) + [EndElement, EndElement]
  }

  function FilesEvents(files: seq<NzbFile>): seq<Event> {
    if files == [] then [] else FileEvents(files[0]) + FilesEvents(files[1..])
  }

  function Serialize(d: NzbDoc): (evs: seq<Event>)
    ensures |evs| == 18 + |FilesEvents(d.files)|
    ensures evs[0] == StartDocument("1.0", "UTF-8") && evs[3] == Comment(d.generator)
    ensures evs[|evs| - 2] == EndElement && evs[|evs| - 1] == EndDocument
  {
    PrologEvents(d.generator) + HeadEvents(d.category, d.name) + FilesEvents(d.files)
    + [EndElement, EndDocument]
  }

  lemma {:induction false} GroupsEventsAppend(a: seq<string>, b: seq<string>)
    ensures GroupsEvents(a + b) == GroupsEvents(a) + GroupsEvents(b)
  {
    if a != [] {
      calc {
        GroupsEvents(a + b);
        { assert (a + b)[0] == a[0] && (a + b)[1..] == a[1..] + b; }
        GroupEvents(a[0]) + GroupsEvents(a[1..] + b);
        { GroupsEventsAppend(a[1..], b); }
        GroupEvents(a[0]) + (GroupsEvents(a[1..]) + GroupsEvents(b));
      }
    } else {
      assert a + b == b;
    }
  }

  lemma {:induction false} SegmentsEventsAppend(a: seq<Segment>, b: seq<Segment>)
    ensures SegmentsEvents(a + b) == SegmentsEvents(a) + SegmentsEvents(b)
  {
    if a != [] {
      calc {
        SegmentsEvents(a + b);
        { assert (a + b)[0] == a[0] && (a + b)[1..] == a[1..] + b; }
        SegmentEvents(a[0]) + SegmentsEvents(a[1..] + b);
        { SegmentsEventsAppend(a[1..], b); }
        SegmentEvents(a[0]) + (SegmentsEvents(a[1..]) + SegmentsEvents(b));
      }
    } else {
      assert a + b == b;
    }
  }

  lemma {:induction false} FilesEventsAppend(a: seq<NzbFile>, b: seq<NzbFile>)
    ensures FilesEvents(a + b) == FilesEvents(a) + FilesEvents(b)
  {
    if a != [] {
      var x, xs := a[0], a[1..];
      var xsb := xs + b;
      assert a == [x] + xs;
      assert a + b == [x] + xsb;
      FilesEventsCons(x, xsb);
      FilesEventsCons(x, xs);
      FilesEventsAppend(xs, b);
      AppendRegroup(FileEvents(x), FilesEvents(xs), FilesEvents(b), FilesEvents(xsb));
    } else {
      assert a + b == b;
    }
  }

  // ---------------------------------------------------------------- reading back

  /** `evs` begins with the events of `prefix`. */
  predicate StartsWith(evs: seq<Event>, prefix: seq<Event>) {
    |prefix| <= |evs| && evs[..|prefix|] == prefix
  }

  /** Zero or more `group` elements; what follows them is returned untouched. */
  function ParseGroups(evs: seq<Event>): (r: (seq<string>, seq<Event>))
    ensures |r.1| <= |evs|
    decreases |evs|
  {
    if |evs| >= 3 && evs[0] == StartElement("group") && evs[1].Text? && evs[2] == EndElement then
      var (gs, rest) := ParseGroups(evs[3..]);
      ([evs[1].content] + gs, rest)
    else ([], evs)
  }

  function ParseSegment(evs: seq<Event>): Option<Segment> {
    if |evs| >= 5 && evs[0] == StartElement("segment")
       && evs[1].Attribute? && evs[1].name == "bytes"
       && evs[2].Attribute? && evs[2].name == "number"
       && evs[3].Text? && evs[4] == EndElement
    then Some(Segment(evs[1].value, evs[2].value, evs[3].content))
    else None
  }

  /** Zero or more `segment` elements; what follows them is returned untouched. */
  function ParseSegments(evs: seq<Event>): (r: (seq<Segment>, seq<Event>))
    ensures |r.1| <= |evs|
    decreases |evs|
  {
    match ParseSegment(evs)
    case Some(s) =>
      var (ss, rest) := ParseSegments(evs[5..]);
      ([s] + ss, rest)
    case None => ([], evs)
  }

  /** The attributes of a `file` element, read from its opening calls. */
  function ParseFileOpen(evs: seq<Event>): Option<(string, string, string)> {
    if |evs| >= 5 && evs[0] == StartElement("file")
       && evs[1].Attribute? && evs[1].name == "poster"
       && evs[2].Attribute? && evs[2].name == "date"
       && evs[3].Attribute? && evs[3].name == "subject"
       && evs[4] == StartElement("groups")
    then Some((evs[1].value, evs[2].value, evs[3].value))
    else None
  }

  function ParseFile(evs: seq<Event>): (r: Option<(NzbFile, seq<Event>)>)
    ensures r.Some? ==> |r.value.1| < |evs|
  {
    match ParseFileOpen(evs)
    case None => None
    case Some((poster, date, subject)) =>
      var (gs, r1) := ParseGroups(evs[5..]);
      if !StartsWith(r1, [EndElement, StartElement("segments")]) then None
      else
        var (ss, r2) := ParseSegments(r1[2..]);
        if !StartsWith(r2, [EndElement, EndElement]) then None
        else Some((NzbFile(poster, date, subject, gs, ss), r2[2..]))
  }

  /** Zero or more `file` elements; what follows them is returned untouched. */
  function ParseFiles(evs: seq<Event>): (r: (seq<NzbFile>, seq<Event>))
    ensures |r.1| <= |evs|
    decreases |evs|
  {
    match ParseFile(evs)
    case Some((f, rest)) =>
      var (fs, rest') := ParseFiles(rest);
      ([f] + fs, rest')
    case None => ([], evs)
  }

  /** The document an event stream describes, if it has the shape of an NZB document. */
  function Parse(evs: seq<Event>): Option<NzbDoc> {
    if |evs| >= 16 && evs[3].Comment? && evs[9].Text? && evs[13].Text?
       && StartsWith(evs, PrologEvents(evs[3].content) + HeadEvents(evs[9].content, evs[13].content))
    then
      var (fs, rest) := ParseFiles(evs[16..]);
      if rest == [EndElement, EndDocument] then
        Some(NzbDoc(evs[3].content, evs[9].content, evs[13].content, fs))
      else None
    else None
  }

  lemma {:induction false} ParseGroupsEvents(gs: seq<string>, rest: seq<Event>)
    requires rest == [] || rest[0] != StartElement("group")
    ensures ParseGroups(GroupsEvents(gs) + rest) == (gs, rest)
  {
    if gs != [] {
      var evs := GroupsEvents(gs) + rest;
      assert evs == GroupEvents(gs[0]) + (GroupsEvents(gs[1..]) + rest);
      assert evs[0] == StartElement("group") && evs[1] == Text(gs[0]) && evs[2] == EndElement;
      assert evs[3..] == GroupsEvents(gs[1..]) + rest;
      ParseGroupsEvents(gs[1..], rest);
      assert [gs[0]] + gs[1..] == gs;
    } else {
      assert GroupsEvents(gs) + rest == rest;
    }
  }

  lemma {:induction false} ParseSegmentsEvents(ss: seq<Segment>, rest: seq<Event>)
    requires rest == [] || rest[0] != StartElement("segment")
    ensures ParseSegments(SegmentsEvents(ss) + rest) == (ss, rest)
  {
    if ss != [] {
      var evs := SegmentsEvents(ss) + rest;
      assert evs == SegmentEvents(ss[0]) + (SegmentsEvents(ss[1..]) + rest);
      assert evs[..5] == SegmentEvents(ss[0]);
      assert ParseSegment(evs) == Some(ss[0]);
      assert evs[5..] == SegmentsEvents(ss[1..]) + rest;
      ParseSegmentsEvents(ss[1..], rest);
      assert [ss[0]] + ss[1..] == ss;
    } else {
      assert SegmentsEvents(ss) + rest == rest;
    }
  }

  /** The file events, cut where the parser cuts them. */
  lemma FileEventsShape(f: NzbFile, rest: seq<Event>)
    ensures FileEvents(f) + rest
      == FileOpenEvents(f) + (GroupsEvents(f.groups) + ([EndElement, StartElement("segments")]
         + (SegmentsEvents(f.segments) + ([EndElement, EndElement] + rest))))
  {
  }

  lemma ParseFileEvents(f: NzbFile, rest: seq<Event>)
    ensures ParseFile(FileEvents(f) + rest) == Some((f, rest))
  {
    var evs := FileEvents(f) + rest;
    var tail := [EndElement, EndElement] + rest;
    var mid := [EndElement, StartElement("segments")] + (SegmentsEvents(f.segments) + tail);
    FileEventsShape(f, rest);
    assert evs == FileOpenEvents(f) + (GroupsEvents(f.groups) + mid);
    assert evs[..5] == FileOpenEvents(f);
    assert ParseFileOpen(evs) == Some((f.poster, f.date, f.subject));
    assert evs[5..] == GroupsEvents(f.groups) + mid;
    ParseGroupsEvents(f.groups, mid);
    assert StartsWith(mid, [EndElement, StartElement("segments")]);
    assert mid[2..] == SegmentsEvents(f.segments) + tail;
    ParseSegmentsEvents(f.segments, tail);
    assert StartsWith(tail, [EndElement, EndElement]);
    assert tail[2..] == rest;
  }

  lemma {:induction false} ParseFilesEvents(fs: seq<NzbFile>, rest: seq<Event>)
    requires rest == [] || rest[0] != StartElement("file")
    ensures ParseFiles(FilesEvents(fs) + rest) == (fs, rest)
  {
    if fs == [] {
      assert FilesEvents(fs) + rest == rest;
      assert ParseFileOpen(rest).None?;
    } else {
      var more := FilesEvents(fs[1..]) + rest;
      FilesEventsCons(fs[0], fs[1..]);
      assert [fs[0]] + fs[1..] == fs;
      AppendRegroup(FileEvents(fs[0]), FilesEvents(fs[1..]), rest, more);
      ParseFileEvents(fs[0], more);
      ParseFilesEvents(fs[1..], rest);
    }
  }

  /** A serialised document: the sixteen events before the files, then the files and the two closing events. */
  lemma SerializeSplit(d: NzbDoc)
    ensures Serialize(d) == (PrologEvents(d.generator) + HeadEvents(d.category, d.name))
                            + (FilesEvents(d.files) + [EndElement, EndDocument])
  {
    AppendRegroup(PrologEvents(d.generator) + HeadEvents(d.category, d.name), FilesEvents(d.files),
                  [EndElement, EndDocument], FilesEvents(d.files) + [EndElement, EndDocument]);
  }

  /** Appending two pieces after a common prefix is appending their join. */
  lemma AppendRegroup<T>(prefix: seq<T>, a: seq<T>, b: seq<T>, joined: seq<T>)
    requires joined == a + b
    ensures prefix + a + b == prefix + joined
  {
  }

  /** Reading back a serialised document gives the document that was serialised. */
  lemma ParseSerialize(d: NzbDoc)
    ensures Parse(Serialize(d)) == Some(d)
  {
    var evs := Serialize(d);
    var head := PrologEvents(d.generator) + HeadEvents(d.category, d.name);
    var tail := FilesEvents(d.files) + [EndElement, EndDocument];
    assert |head| == 16;
    assert head[3] == Comment(d.generator) && head[9] == Text(d.category) && head[13] == Text(d.name);
    SerializeSplit(d);
    assert evs[..16] == head && evs[16..] == tail;
    assert evs[3] == head[3] && evs[9] == head[9] && evs[13] == head[13];
    ParseFilesEvents(d.files, [EndElement, EndDocument]);
  }

  /**
   * The `head` element, with the category `meta` entry and then the name `meta` entry, is
   * complete before the first `file` element opens.
   */
  lemma HeadBeforeFiles(d: NzbDoc)
    ensures var evs := Serialize(d);
      |evs| >= 16
      && evs[6..16] == [StartElement("head"),
                        StartElement("meta"), Attribute("type", "category"), Text(d.category), EndElement,
                        StartElement("meta"), Attribute("type", "name"), Text(d.name), EndElement,
                        EndElement]
      && (forall k :: 0 <= k < 16 ==> evs[k] != StartElement("file"))
      && (d.files != [] ==> evs[16] == StartElement("file"))
  {
    var evs := Serialize(d);
    var head := PrologEvents(d.generator) + HeadEvents(d.category, d.name);
    PrologAndHead(d.generator, d.category, d.name);
    SerializeSplit(d);
    assert evs[..16] == head;
    if d.files != [] {
      assert FilesEvents(d.files)[0] == StartElement("file");
    }
  }

  /** The sixteen events before the first file: the prolog, then the head. */
  lemma PrologAndHead(generator: string, category: string, name: string)
    ensures var head := PrologEvents(generator) + HeadEvents(category, name);
      |head| == 16
      && head[6..16] == HeadEvents(category, name)
      && forall k :: 0 <= k < 16 ==> head[k] != StartElement("file")
  {
  }

  lemma GroupsEventsCons(g: string, gs: seq<string>)
    ensures GroupsEvents([g] + gs) == GroupEvents(g) + GroupsEvents(gs)
  {
    assert ([g] + gs)[0] == g && ([g] + gs)[1..] == gs;
  }

  lemma SegmentsEventsCons(s: Segment, ss: seq<Segment>)
    ensures SegmentsEvents([s] + ss) == SegmentEvents(s) + SegmentsEvents(ss)
  {
    assert ([s] + ss)[0] == s && ([s] + ss)[1..] == ss;
  }

  lemma FilesEventsCons(f: NzbFile, fs: seq<NzbFile>)
    ensures FilesEvents([f] + fs) == FileEvents(f) + FilesEvents(fs)
  {
    assert ([f] + fs)[0] == f && ([f] + fs)[1..] == fs;
  }

  /** Putting back together what was read: the first `n` events `evs[..n]` read as `piece`, then the rest. */
  lemma Rejoin(evs: seq<Event>, n: nat, piece: seq<Event>, more: seq<Event>, rest: seq<Event>)
    requires n <= |evs| && evs[..n] == piece && more + rest == evs[n..]
    ensures piece + more + rest == evs
  {
    assert evs == evs[..n] + evs[n..];
  }

  lemma {:induction false} ParseGroupsSplits(evs: seq<Event>)
    ensures GroupsEvents(ParseGroups(evs).0) + ParseGroups(evs).1 == evs
    decreases |evs|
  {
    if |evs| >= 3 && evs[0] == StartElement("group") && evs[1].Text? && evs[2] == EndElement {
      var g := evs[1].content;
      var r := ParseGroups(evs[3..]);
      assert ParseGroups(evs) == ([g] + r.0, r.1);
      ParseGroupsSplits(evs[3..]);
      GroupsEventsCons(g, r.0);
      Rejoin(evs, 3, GroupEvents(g), GroupsEvents(r.0), r.1);
    }
  }

  lemma {:induction false} ParseSegmentsSplits(evs: seq<Event>)
    ensures SegmentsEvents(ParseSegments(evs).0) + ParseSegments(evs).1 == evs
    decreases |evs|
  {
    var p := ParseSegment(evs);
    if p.Some? {
      var s := p.value;
      var r := ParseSegments(evs[5..]);
      assert ParseSegments(evs) == ([s] + r.0, r.1);
      ParseSegmentsSplits(evs[5..]);
      SegmentsEventsCons(s, r.0);
      assert evs[..5] == SegmentEvents(s);
      Rejoin(evs, 5, SegmentEvents(s), SegmentsEvents(r.0), r.1);
    }
  }

  lemma ParseFileOpenSplits(evs: seq<Event>)
    requires ParseFileOpen(evs).Some?
    ensures var (poster, date, subject) := ParseFileOpen(evs).value;
      evs[..5] == [StartElement("file"), Attribute("poster", poster), Attribute("date", date),
                   Attribute("subject", subject), StartElement("groups")]
  {
  }

  /** What follows the opening of a parsed `file`, cut where the parser cuts it. */
  lemma ParseFileBody(evs: seq<Event>)
    requires ParseFile(evs).Some?
    ensures var f, rest := ParseFile(evs).value.0, ParseFile(evs).value.1;
      evs[5..] == GroupsEvents(f.groups) + ([EndElement, StartElement("segments")]
                  + (SegmentsEvents(f.segments) + ([EndElement, EndElement] + rest)))
  {
    var body := evs[5..];
    var g := ParseGroups(body);
    ParseGroupsSplits(body);
    var r1 := g.1;
    var sg := ParseSegments(r1[2..]);
    ParseSegmentsSplits(r1[2..]);
    var r2 := sg.1;
    var f, rest := ParseFile(evs).value.0, ParseFile(evs).value.1;
    assert f.groups == g.0 && f.segments == sg.0 && rest == r2[2..];
    assert StartsWith(r1, [EndElement, StartElement("segments")]) && StartsWith(r2, [EndElement, EndElement]);
    Reassemble(body, GroupsEvents(g.0), r1, [EndElement, StartElement("segments")],
               SegmentsEvents(sg.0), r2, [EndElement, EndElement]);
  }

  /** Two cuts, each followed by a two-event marker, put back together. */
  lemma Reassemble(whole: seq<Event>, first: seq<Event>, r1: seq<Event>, m1: seq<Event>, second: seq<Event>,
                   r2: seq<Event>, m2: seq<Event>)
    requires whole == first + r1 && |m1| == 2 && StartsWith(r1, m1)
    requires r1[2..] == second + r2 && |m2| == 2 && StartsWith(r2, m2)
    ensures whole == first + (m1 + (second + (m2 + r2[2..])))
  {
    assert r2 == m2 + r2[2..];
    assert r1 == m1 + r1[2..];
  }

  lemma ParseFileSplits(evs: seq<Event>)
    requires ParseFile(evs).Some?
    ensures FileEvents(ParseFile(evs).value.0) + ParseFile(evs).value.1 == evs
  {
    var f, rest := ParseFile(evs).value.0, ParseFile(evs).value.1;
    ParseFileBody(evs);
    ParseFileOpenSplits(evs);
    assert (f.poster, f.date, f.subject) == ParseFileOpen(evs).value;
    FileEventsShape(f, rest);
    assert evs == evs[..5] + evs[5..];
  }

  lemma {:induction false} ParseFilesSplits(evs: seq<Event>)
    ensures FilesEvents(ParseFiles(evs).0) + ParseFiles(evs).1 == evs
    decreases |evs|
  {
    var p := ParseFile(evs);
    if p.Some? {
      var f, rest := p.value.0, p.value.1;
      var r := ParseFiles(rest);
      assert ParseFiles(evs) == ([f] + r.0, r.1);
      ParseFileSplits(evs);
      ParseFilesSplits(rest);
      FilesEventsCons(f, r.0);
      assert FileEvents(f) + FilesEvents(r.0) + r.1 == FileEvents(f) + (FilesEvents(r.0) + r.1);
    }
  }

  /** Only serialised documents are read back: the reading is exact. */
  lemma SerializeParse(evs: seq<Event>)
    requires Parse(evs).Some?
    ensures Serialize(Parse(evs).value) == evs
  {
    var d := Parse(evs).value;
    var r := ParseFiles(evs[16..]);
    assert d.files == r.0 && r.1 == [EndElement, EndDocument];
    ParseFilesSplits(evs[16..]);
    var head := PrologEvents(d.generator) + HeadEvents(d.category, d.name);
    assert evs[..16] == head;
    Rejoin(evs, 16, head, FilesEvents(d.files), [EndElement, EndDocument]);
  }


  // ---------------------------------------------------------------- open elements

  /** The writer's stack of open element names after one call; None on an unmatched end. */
  function Step(open: seq<string>, e: Event): Option<seq<string>> {
    match e
    case StartElement(n) => Some(open + [n])
    case EndElement => if open == [] then None else Some(open[..|open| - 1])
    case _ => Some(open)
  }

  function Run(open: seq<string>, evs: seq<Event>): Option<seq<string>>
    decreases |evs|
  {
    if evs == [] then Some(open)
    else match Step(open, evs[0])
      case None => None
      case Some(open') => Run(open', evs[1..])
  }

  lemma {:induction false} RunAppend(open: seq<string>, a: seq<Event>, b: seq<Event>)
    ensures Run(open, a + b) == match Run(open, a) case None => None case Some(o) => Run(o, b)
    decreases |a|
  {
    if a == [] {
      assert a + b == b;
    } else {
      assert (a + b)[0] == a[0] && (a + b)[1..] == a[1..] + b;
      match Step(open, a[0])
      case None =>
      case Some(o) => RunAppend(o, a[1..], b);
    }
  }

  lemma RunOne(open: seq<string>, e: Event)
    ensures Run(open, [e]) == Step(open, e)
  {
    assert [e][1..] == [];
  }

  /** Events that open and close no element leave the stack alone. */
  lemma {:induction false} RunFlat(open: seq<string>, evs: seq<Event>)
    requires forall i :: 0 <= i < |evs| ==> !evs[i].StartElement? && !evs[i].EndElement?
    ensures Run(open, evs) == Some(open)
    decreases |evs|
  {
    if evs != [] {
      RunFlat(open, evs[1..]);
    }
  }

  /** An element whose content is balanced is balanced. */
  lemma RunElement(open: seq<string>, name: string, content: seq<Event>)
    requires Run(open + [name], content) == Some(open + [name])
    ensures Run(open, [StartElement(name)] + content + [EndElement]) == Some(open)
  {
    assert [StartElement(name)] + content + [EndElement] == [StartElement(name)] + (content + [EndElement]);
    RunAppend(open, [StartElement(name)], content + [EndElement]);
    RunOne(open, StartElement(name));
    RunAppend(open + [name], content, [EndElement]);
    RunOne(open + [name], EndElement);
    assert (open + [name])[..|open|] == open;
  }

  lemma RunGroup(open: seq<string>, g: string)
    ensures Run(open, GroupEvents(g)) == Some(open)
  {
    RunFlat(open + ["group"], [Text(g)]);
    RunElement(open, "group", [Text(g)]);
  }

  lemma {:induction false} RunGroups(open: seq<string>, gs: seq<string>)
    ensures Run(open, GroupsEvents(gs)) == Some(open)
  {
    if gs != [] {
      RunGroup(open, gs[0]);
      RunGroups(open, gs[1..]);
      RunAppend(open, GroupEvents(gs[0]), GroupsEvents(gs[1..]));
    }
  }

  lemma RunSegment(open: seq<string>, s: Segment)
    ensures Run(open, SegmentEvents(s)) == Some(open)
  {
    var content := [Attribute("bytes", s.bytes), Attribute("number", s.number), Text(s.messageId)];
    RunFlat(open + ["segment"], content);
    RunElement(open, "segment", content);
    assert SegmentEvents(s) == [StartElement("segment")] + content + [EndElement];
  }

  lemma {:induction false} RunSegments(open: seq<string>, ss: seq<Segment>)
    ensures Run(open, SegmentsEvents(ss)) == Some(open)
  {
    if ss != [] {
      RunSegment(open, ss[0]);
      RunSegments(open, ss[1..]);
      RunAppend(open, SegmentEvents(ss[0]), SegmentsEvents(ss[1..]));
    }
  }

  /** The file events as nested elements: attributes, then `groups`, then `segments`. */
  lemma FileEventsNested(f: NzbFile)
    ensures FileEvents(f) == [StartElement("file")]
      + ([Attribute("poster", f.poster), Attribute("date", f.date), Attribute("subject", f.subject)]
         + ([StartElement("groups")] + GroupsEvents(f.groups) + [EndElement])
         + ([StartElement("segments")] + SegmentsEvents(f.segments) + [EndElement]))
      + [EndElement]
  {
  }

  lemma RunFile(open: seq<string>, f: NzbFile)
    ensures Run(open, FileEvents(f)) == Some(open)
  {
    var attrs := [Attribute("poster", f.poster), Attribute("date", f.date), Attribute("subject", f.subject)];
    var inFile := open + ["file"];
    var groups := [StartElement("groups")] + GroupsEvents(f.groups) + [EndElement];
    var segments := [StartElement("segments")] + SegmentsEvents(f.segments) + [EndElement];
    RunGroups(inFile + ["groups"], f.groups);
    RunElement(inFile, "groups", GroupsEvents(f.groups));
    RunSegments(inFile + ["segments"], f.segments);
    RunElement(inFile, "segments", SegmentsEvents(f.segments));
    RunFlat(inFile, attrs);
    RunAppend(inFile, attrs, groups);
    RunAppend(inFile, attrs + groups, segments);
    RunElement(open, "file", attrs + groups + segments);
    FileEventsNested(f);
  }

  lemma {:induction false} RunFiles(open: seq<string>, fs: seq<NzbFile>)
    ensures Run(open, FilesEvents(fs)) == Some(open)
  {
    if fs != [] {
      RunFile(open, fs[0]);
      RunFiles(open, fs[1..]);
      RunAppend(open, FileEvents(fs[0]), FilesEvents(fs[1..]));
    }
  }

  lemma RunHead(open: seq<string>, category: string, name: string)
    ensures Run(open, HeadEvents(category, name)) == Some(open)
  {
    var inHead := open + ["head"];
    var metaC := [Attribute("type", "category"), Text(category)];
    var metaN := [Attribute("type", "name"), Text(name)];
    RunFlat(inHead + ["meta"], metaC);
    RunElement(inHead, "meta", metaC);
    RunFlat(inHead + ["meta"], metaN);
    RunElement(inHead, "meta", metaN);
    assert MetaEvents("category", category) == [StartElement("meta")] + metaC + [EndElement];
    assert MetaEvents("name", name) == [StartElement("meta")] + metaN + [EndElement];
    RunAppend(inHead, MetaEvents("category", category), MetaEvents("name", name));
    RunElement(open, "head", MetaEvents("category", category) + MetaEvents("name", name));
    assert HeadEvents(category, name)
      == [StartElement("head")] + (MetaEvents("category", category) + MetaEvents("name", name)) + [EndElement];
  }

  lemma RunProlog(generator: string)
    ensures Run([], PrologEvents(generator)) == Some(["nzb"])
  {
    var decl := [StartDocument("1.0", "UTF-8"), StartDtd(DtdName, DtdPublic, DtdSystem), EndDtd, Comment(generator)];
    var xmlns := [Attribute("xmlns", XmlNamespace)];
    assert PrologEvents(generator) == decl + ([StartElement("nzb")] + xmlns);
    RunFlat([], decl);
    RunAppend([], decl, [StartElement("nzb")] + xmlns);
    RunAppend([], [StartElement("nzb")], xmlns);
    RunOne([], StartElement("nzb"));
    assert [] + ["nzb"] == ["nzb"];
    RunFlat(["nzb"], xmlns);
  }

  /**
   * Every element the document opens is closed, no end closes an element that is not open,
   * and the last element closed is the root `nzb`, just before the document ends.
   */
  lemma Balanced(d: NzbDoc)
    ensures var evs := Serialize(d);
      Run([], evs) == Some([])
      && |evs| >= 2 && evs[|evs| - 2] == EndElement && evs[|evs| - 1] == EndDocument
      && Run([], evs[..|evs| - 2]) == Some(["nzb"])
  {
    var evs := Serialize(d);
    var prolog := PrologEvents(d.generator);
    var head := HeadEvents(d.category, d.name);
    RunProlog(d.generator);
    RunHead(["nzb"], d.category, d.name);
    RunFiles(["nzb"], d.files);
    RunAppend([], prolog, head);
    RunAppend([], prolog + head, FilesEvents(d.files));
    var body := prolog + head + FilesEvents(d.files);
    var close := [EndElement, EndDocument];
    assert evs == body + close;
    assert |evs| - 2 == |body| && evs[..|body|] == body;
    RunAppend([], body, close);
    assert close == [EndElement] + [EndDocument];
    RunAppend(["nzb"], [EndElement], [EndDocument]);
    RunOne(["nzb"], EndElement);
    RunOne([], EndDocument);
  }
}

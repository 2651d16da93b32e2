# NZBMultiGroup writer, modelled in Dafny

This project models the multi-group NZB writer of nntmux, `nntmux/NZBMultiGroup.php`.
An NZB is an XML index of the usenet articles that make up a release. The writer is the
part of nntmux that turns the staging rows of a release into one. It reads the release's
collections, their binaries and the binaries' parts, and streams them into an XML writer:

- a prolog with the NZB 1.1 DTD and a generator comment;
- a `head` element holding the category and the name as `meta` entries;
- one `file` element per binary, giving its poster, date and subject, the newsgroups taken
  from the collection's cross-reference header, and one `segment` per part.

While it writes, it keeps the first non-empty message id as the document guid. Then it
commits:

1. write the compressed file;
2. check that the file exists;
3. mark the release as having an NZB, with the hashed guid when there is one;
4. delete the staging rows;
5. open up the file's permissions.

Modules, one per file:

- `Options` (`options.dfy`): the `Option` type.
- `Decimal` (`decimal.dfy`): how PHP writes an integer column as decimal text, and the
  inverse of that conversion.
- `Xref` (`xref.dfy`): newsgroup extraction with the pattern `(\S+):\S+`.
  - `Groups` follows the regular-expression engine: attempts from left to right, greedy
    capture, backtracking to the last usable ':'.
  - `TokenGroups(Tokens(..))` reads the same rule token by token. The two are proved equal.
- `NzbDocument` (`nzb_document.dfy`): XMLWriter calls as a sequence of events, and the NZB
  document tree. It defines:
  - its serialisation;
  - a parser that gives the tree back, with round trips proved both ways;
  - the proof that every element opened is closed.
- `Fragments` (`fragments.dfy`):
  - the loader rows, where each query may fail to be traversable;
  - the document a release must produce (`Nzb`, `Files`, `FileOf`);
  - the subject line;
  - the guid accumulator (`FirstNonEmpty`).
- `NzbMultiGroup` (`nzb_multi_group.dfy`):
  - the split-level default;
  - the `XmlWriter` class, an append-only event buffer;
  - the imperative build (`BuildMgrNzb` and the writer methods it calls, with the nested
    loops of the source);
  - the `NzbMultiGroup` class, whose commit stage appends what it does to an `effects` log.

## Model

| member | source | states |
|---|---|---|
| NzbMultiGroup.IsEmptySetting | nntmux/NZBMultiGroup.php:52 | PHP's empty() on the setting holds exactly for null and for a string of at most one character that is all zeros, that is '' and '0'. A string such as "00" or " " is not empty. |
| NzbMultiGroup.SplitLevel | nntmux/NZBMultiGroup.php:50-52 | The split level is 1 when the setting is null, '' or '0'. Otherwise it is the setting's value. The level is never itself an empty value. |
| NzbMultiGroup.NzbMultiGroup.constructor | nntmux/NZBMultiGroup.php:47-52 | A new writer holds the split level derived from the setting, an empty effects log, and is not yet initiated: no query templates and no comment. |
| NzbMultiGroup.NzbMultiGroup.InitiateForMgrWrite | nntmux/NZBMultiGroup.php:81-85 | The object becomes initiated: the query templates of lines 64-79 are set. The generator comment becomes "NZB Generated by: NNTmux ", then the version tag, a space, and the formatted date. |
| NzbMultiGroup.XmlWriter.constructor | nntmux/NZBMultiGroup.php:108-109 | openMemory: the buffer starts empty. |
| NzbMultiGroup.XmlWriter.StartDocument | nntmux/NZBMultiGroup.php:115 | The call is appended to the buffer and nothing else changes; likewise for each writer method below. |
| NzbMultiGroup.XmlWriter.StartDtd | nntmux/NZBMultiGroup.php:116 | Appends the DTD start with its name, public id and system id. |
| NzbMultiGroup.XmlWriter.EndDtd | nntmux/NZBMultiGroup.php:117 | Appends the DTD end. |
| NzbMultiGroup.XmlWriter.WriteComment | nntmux/NZBMultiGroup.php:118 | Appends the comment. |
| NzbMultiGroup.XmlWriter.StartElement | nntmux/NZBMultiGroup.php:120 | Appends an element start. |
| NzbMultiGroup.XmlWriter.WriteAttribute | nntmux/NZBMultiGroup.php:121 | Appends an attribute. |
| NzbMultiGroup.XmlWriter.Text | nntmux/NZBMultiGroup.php:125 | Appends text content. |
| NzbMultiGroup.XmlWriter.EndElement | nntmux/NZBMultiGroup.php:126 | Appends an element end. |
| NzbMultiGroup.XmlWriter.WriteElement | nntmux/NZBMultiGroup.php:155 | writeElement is a start, a text and an end. |
| NzbMultiGroup.XmlWriter.EndDocument | nntmux/NZBMultiGroup.php:175 | Appends the document end. |
| NzbMultiGroup.WriteProlog | nntmux/NZBMultiGroup.php:115-121 | The buffer gains exactly the prolog: the XML declaration 1.0/UTF-8, the NZB DTD, the comment, the `nzb` root and its namespace. |
| NzbMultiGroup.WriteHead | nntmux/NZBMultiGroup.php:122-131 | The buffer gains exactly the `head` element: a category `meta` with text cTitle, then a name `meta` with text name. |
| NzbMultiGroup.OpenFile | nntmux/NZBMultiGroup.php:147-152 | The buffer gains the opening of a `file`: the poster is the collection's fromname, the date its udate in decimal, the subject the binary's subject line. Then `groups` opens. |
| NzbMultiGroup.WriteGroups | nntmux/NZBMultiGroup.php:153-157 | The buffer gains one `group` element per extracted group, in order. |
| NzbMultiGroup.WriteSegment | nntmux/NZBMultiGroup.php:164-168 | The buffer gains one `segment`: `bytes` is the size, `number` the part number (both in decimal), and the text is the message id. |
| NzbMultiGroup.WriteSegments | nntmux/NZBMultiGroup.php:159-170 | The buffer gains one segment per part, in part order. The guid afterwards is the first non-empty id among the ids seen before and this binary's ids. |
| NzbMultiGroup.WriteFile | nntmux/NZBMultiGroup.php:147-171 | The buffer gains exactly the `file` element the expected document has for this binary, and the guid advances over its segments. |
| NzbMultiGroup.WriteCollection | nntmux/NZBMultiGroup.php:134-172 | It fails exactly when some binary's parts query is not traversable. Otherwise the buffer gains this collection's files in binary order, and the guid advances over their message ids. |
| NzbMultiGroup.BuildMgrNzb | nntmux/NZBMultiGroup.php:102-175 | The build succeeds exactly when every query (collections, each binaries, each parts) is traversable. On success the buffer is the serialised expected document, and the guid is the first non-empty message id in document order. |
| NzbMultiGroup.Commit | nntmux/NZBMultiGroup.php:176-207 | The result is true exactly when the sink opens and the file exists. If the sink does not open, nothing happens. Otherwise open, write and close come first. A missing file adds only the missing-file report after them. On success the last effect is the chmod to 0777. The database actions are exactly [status update, staging delete] on success and none on failure. The update carries a guid only when it is non-empty. |
| NzbMultiGroup.NzbMultiGroup.CommitNzb | nntmux/NZBMultiGroup.php:176-207 | The method's result and the effects it appends are those `Commit` describes, in that order. |
| NzbMultiGroup.NzbMultiGroup.WriteMgrNzbForReleaseId | nntmux/NZBMultiGroup.php:100-208 | Before initiateForMgrWrite it returns false and does nothing, because the collections query is only the release id. When a query is not traversable, it returns false and nothing is opened or written. Otherwise it commits, at the path the path builder gives for the release guid and split level, exactly the serialised expected document with its first-non-empty guid. |
| NzbMultiGroup.NzbPath | nntmux/NZBMultiGroup.php:176 | The path is the builder's directory, then the release guid, then ".nzb.gz", and each of the three parts can be read back from it. |
| NzbMultiGroup.GuidUpdate | nntmux/NZBMultiGroup.php:193 | The status update carries no guid exactly when the guid is ''. Otherwise it carries the guid itself. |
| NzbMultiGroup.DbActionsAppend | nntmux/NZBMultiGroup.php:190-203 | The database actions of a concatenated log are those of each part, in order. |
| NzbMultiGroup.MessageIdsAppend | nntmux/NZBMultiGroup.php:160-163 | The message ids of two runs of files, in order, are the ids of the first run followed by those of the second. |
| NzbMultiGroup.GuidStep | nntmux/NZBMultiGroup.php:161-163 | One more message id: the accumulator takes it only while it is still ''. |
| Fragments.Subject | nntmux/NZBMultiGroup.php:147 | The subject line starts with the binary's name and ends with ')'. The '(' right after the name is the last '(' in the line, so the name can be recovered whatever it contains. |
| Fragments.SubjectRoundTrip | nntmux/NZBMultiGroup.php:147 | The subject line gives back the binary's name and its declared part count, whatever the name contains and however many parts exist. |
| Fragments.Files | nntmux/NZBMultiGroup.php:133-172 | The expected files, collection after collection: exactly one file per binary over all collections. |
| Fragments.Nzb | nntmux/NZBMultiGroup.php:115-175 | The expected document carries the generator comment, the category and the name as given, and one file per binary. |
| Fragments.FileOfBinary | nntmux/NZBMultiGroup.php:139-170 | Binary j of collection i is the file at position (files of earlier collections) + j. Its poster and date are the collection's, and its subject reads back as the binary's name and count. Its groups are the collection's xref groups (the same for every file of the collection). It has one segment per part, in order: size, part number, message id. |
| Fragments.FileOfFields | nntmux/NZBMultiGroup.php:147-170 | The expected `file` entry of one binary (`FileOf`) carries the collection's poster and date and its xref groups. Its subject reads back as the binary's name and count. It has one segment per part, in order: size, part number, message id. |
| Fragments.FileAt | nntmux/NZBMultiGroup.php:133-172 | Files appear in collection order, then binary order. |
| Fragments.FilesAround | nntmux/NZBMultiGroup.php:133-173 | A collection's files sit between those of the collections before it and those after it. |
| Fragments.FilesAppend | nntmux/NZBMultiGroup.php:133-173 | The files of two runs of collections are those of the first run followed by those of the second. |
| Fragments.FirstNonEmpty | nntmux/NZBMultiGroup.php:113 | The guid is '' or one of the message ids. |
| Fragments.FirstNonEmptyIsFirst | nntmux/NZBMultiGroup.php:161-163 | The guid is the first non-empty message id, whatever follows it; so ["", "m2", "m1"] gives "m2". |
| Fragments.FirstNonEmptyAllEmpty | nntmux/NZBMultiGroup.php:113 | The guid stays '' exactly when every message id is ''. |
| Fragments.FirstNonEmptyStable | nntmux/NZBMultiGroup.php:161-163 | Once the guid is non-empty, later parts do not change it. |
| Xref.Groups | nntmux/NZBMultiGroup.php:153 | Every group extracted is non-empty and contains no whitespace. |
| Xref.Backtrack | nntmux/NZBMultiGroup.php:153 | The greedy capture stops at the last ':' of the run that is not its first character and leaves at least one character after it. No such ':' means no match. |
| Xref.MatchAt | nntmux/NZBMultiGroup.php:153 | A match captures a non-empty, whitespace-free prefix that is followed by ':', and consumes at least two more characters. |
| Xref.GroupsByToken | nntmux/NZBMultiGroup.php:153-157 | The regex scan equals the token-by-token reading: for each whitespace-separated token, what precedes its last inner ':'. |
| Xref.NoMatchSkipsRun | nntmux/NZBMultiGroup.php:153 | When the attempt at a token's start fails, no later attempt inside the token succeeds. |
| Xref.TokenGroupNone | nntmux/NZBMultiGroup.php:153 | A token adds no group exactly when it has no ':' strictly inside it. |
| Xref.XrefGroups | nntmux/NZBMultiGroup.php:153-157 | For a header "server group:article ...", the groups are exactly the posted groups, in order. The server name adds nothing. |
| Xref.PostingTokens | nntmux/NZBMultiGroup.php:153-157 | A list of "group:article" postings reads back as its group names. |
| Decimal.NatToString | nntmux/NZBMultiGroup.php:150 | Integers are written as at least one digit, with no leading zero. |
| Decimal.NatToStringValue | nntmux/NZBMultiGroup.php:165-166 | Reading the decimal text back gives the number. |
| Decimal.NatToStringInjective | nntmux/NZBMultiGroup.php:165-166 | Different numbers are written differently. |
| NzbDocument.Serialize | nntmux/NZBMultiGroup.php:115-175 | The call stream of a document is 18 calls plus those of its files. It opens with the 1.0/UTF-8 declaration, has the generator comment as its fourth call, and ends by closing `nzb` and then the document. |
| NzbDocument.ParseSerialize | nntmux/NZBMultiGroup.php:115-175 | Parsing the written event stream gives back the document: generator, category, name, and every file with its groups and segments. |
| NzbDocument.SerializeParse | nntmux/NZBMultiGroup.php:115-175 | Any event stream the parser accepts is exactly the serialisation of what it returns. |
| NzbDocument.HeadBeforeFiles | nntmux/NZBMultiGroup.php:122-131 | Events 6 to 15 are the complete `head`: category `meta`, then name `meta`. No `file` starts before them, and the first file starts right after. |
| NzbDocument.Balanced | nntmux/NZBMultiGroup.php:115-175 | Every element opened is closed and no end is unmatched. The last element closed is `nzb`, right before the document ends. |
| NzbDocument.RunFile | nntmux/NZBMultiGroup.php:148-171 | A `file` element leaves the open-element stack as it found it. |
| NzbDocument.RunHead | nntmux/NZBMultiGroup.php:122-131 | The `head` element leaves the open-element stack as it found it. |
| NzbDocument.FilesEventsAppend | nntmux/NZBMultiGroup.php:133-173 | The events of two runs of files are those of the first run followed by those of the second. |

## Left out

- SQL text, query execution and the row order or de-duplication done by `ORDER BY` and
  `DISTINCT`. The rows arrive as they come.
  - A failed query is the `NotTraversable` case.
  - `DISTINCT(p.messageid)` applies to whole rows (message id, size, part number), not to
    the message id alone, so the model does not assume unique message ids.
- Database writes are recorded as `UpdateStatus` and `DeleteStaging` effects.
  - The md5/UNHEX hashing of the guid is not modelled. The effect carries the guid that
    would be hashed.
  - The constant `NZB::NZB_ADDED` is not part of this model.
- XMLWriter indentation (`setIndent`) and character escaping: the model keeps the calls, not
  the bytes.
- Gzip compression, `gzopen`, `is_file`, `chmod` and `NZB::buildNZBPath`.
  - The path builder is a function parameter.
  - Whether the sink opens, and whether the file exists afterwards, are boolean parameters.
  - The write, the missing-file error report and the chmod are effects.
- The version tag (`li3Versions`) and the date formatting (`date`, `Utility::htmlfmt`) in the
  generator comment are parameters of `InitiateForMgrWrite`.
- The DTD name, public id, system id and XML namespace live in `nntmux/NZB.php`, which is not
  part of this model. The values used are those of the NZB 1.1 format.
- Null columns are not modelled: messageid, size, partnumber, totalparts and udate are
  non-null. A null message id would leave PHP's `===` guid test stuck at null.
- Strings are sequences of characters, and each character stands for one byte, as PHP
  strings do.
- The DB connection, the NZB helper and the settings store are not modelled as objects. Only the split level and the comment they produce are
  fields.
- The three query templates set by `initiateForMgrWrite` are not kept as text. The
  `initiated` field records whether they are set. Before that the collections query is the
  bare release id, which the database rejects.
- The guid is a local variable of `writeMgrNZBforReleaseId` in the source. It is a local (and
  an out-parameter of the writer helpers) here, not a class field.

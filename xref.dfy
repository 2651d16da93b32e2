/**
 * Newsgroup extraction from a collection's cross-reference header
 * (nntmux/NZBMultiGroup.php:153-157): every match of the pattern `(\S+):\S+` in the header
 * and then every first capture, in match order.
 *
 * `Groups` follows the regular-expression engine: it tries a match at each position from
 * left to right, the greedy `(\S+)` takes the whole run of non-space characters and gives
 * characters back until it stands just before a ':' that is followed by at least one
 * non-space character, and the search resumes after the match. `TokenGroups(Tokens(x))`
 * is an independent, token-by-token reading of the same rule, and `GroupsByToken` proves
 * the two equal. The subject is matched byte by byte (no `u` modifier); a `char` here stands
 * for one byte, and `\s` is PCRE's default set: space, tab, line feed, vertical tab,
 * form feed and carriage return.
 */
module Xref {
  import opened Options

  predicate IsSpace(c: char) {
    c == ' ' || c == '\t' || c == '\n' || c == '\U{0B}' || c == '\U{0C}' || c == '\r'
  }

  predicate NoSpace(s: string) {
    forall i :: 0 <= i < |s| ==> !IsSpace(s[i])
  }

  predicate NoColon(s: string) {
    forall i :: 0 <= i < |s| ==> s[i] != ':'
  }

  /** Length of the run of non-space characters that `s` starts with. */
  function RunLen(s: string): (n: nat)
    ensures n <= |s|
    ensures forall i :: 0 <= i < n ==> !IsSpace(s[i])
    ensures n < |s| ==> IsSpace(s[n])
  {
    if s == [] || IsSpace(s[0]) then 0 else 1 + RunLen(s[1..])
  }

  /**
   * Backtracking of the greedy `(\S+)` inside a run of length `q`: the capture s[..k] is tried
   * for k = k0, k0 - 1, ..., 1, and is accepted when s[k] is ':' and the trailing `\S+` still
   * has a character (k + 1 < q).
   */
  function Backtrack(s: string, q: nat, k: nat): (r: Option<nat>)
    requires q <= |s| && k <= q
    ensures r.Some? ==> 1 <= r.value <= k && r.value + 1 < q && s[r.value] == ':'
    ensures r.Some? ==> forall j :: r.value < j <= k && j + 1 < q ==> s[j] != ':'
    ensures r.None? ==> forall j :: 1 <= j <= k && j + 1 < q ==> s[j] != ':'
    decreases k
  {
    if k == 0 then None
    else if k + 1 < q && s[k] == ':' then Some(k)
    else Backtrack(s, q, k - 1)
  }

  /**
   * One attempt of the pattern at the start of `s`: the first capture and the length of the
   * whole match (the trailing greedy `\S+` runs to the end of the non-space run).
   */
  function MatchAt(s: string): (r: Option<(string, nat)>)
    ensures r.Some? ==> var (g, n) := r.value;
      g != [] && NoSpace(g) && |g| + 2 <= n <= |s| && g == s[..|g|] && s[|g|] == ':'
  {
    var q := RunLen(s);
    match Backtrack(s, q, q)
    case None => None
    case Some(k) => Some((s[..k], q))
  }

  /** All first captures of `(\S+):\S+` over `xref`, in the order preg_match_all finds them. */
  function Groups(xref: string): (gs: seq<string>)
    ensures forall i :: 0 <= i < |gs| ==> gs[i] != [] && NoSpace(gs[i])
    decreases |xref|
  {
    if xref == [] then []
    else match MatchAt(xref)
      case Some((g, n)) => [g] + Groups(xref[n..])
      case None => Groups(xref[1..])
  }

  /** The maximal runs of non-space characters of `s`, in order. */
  function Tokens(s: string): (ts: seq<string>)
    ensures forall i :: 0 <= i < |ts| ==> ts[i] != [] && NoSpace(ts[i])
    decreases |s|
  {
    if s == [] then []
    else if IsSpace(s[0]) then Tokens(s[1..])
    else var q := RunLen(s); [s[..q]] + Tokens(s[q..])
  }

  /** Index of the last occurrence of `c` in `u`. */
  function LastIndex(u: string, c: char): (r: Option<nat>)
    ensures r.Some? ==> r.value < |u| && u[r.value] == c
    ensures r.Some? ==> forall j :: r.value < j < |u| ==> u[j] != c
    ensures r.None? ==> forall j :: 0 <= j < |u| ==> u[j] != c
  {
    if u == [] then None
    else if u[|u| - 1] == c then Some(|u| - 1)
    else LastIndex(u[..|u| - 1], c)
  }

  /**
   * The group named by one token: what stands before its last ':' that is neither the
   * token's first nor its last character; nothing when there is no such ':'.
   */
  function TokenGroup(t: string): Option<string> {
    if t == [] then None
    else match LastIndex(t[..|t| - 1], ':')
      case Some(k) => if k >= 1 then Some(t[..k]) else None
      case None => None
  }

  function TokenGroups(ts: seq<string>): seq<string> {
    if ts == [] then []
    else (match TokenGroup(ts[0]) case Some(g) => [g] case None => []) + TokenGroups(ts[1..])
  }

  /** A token yields no group exactly when it has no ':' strictly inside it. */
  lemma TokenGroupNone(t: string)
    ensures TokenGroup(t).None? <==> forall j :: 1 <= j < |t| - 1 ==> t[j] != ':'
  {
    if t != [] {
      var lc := LastIndex(t[..|t| - 1], ':');
      if lc.Some? && lc.value >= 1 {
        assert t[lc.value] == ':';
      }
      if TokenGroup(t).None? && lc.Some? {
        forall j | 1 <= j < |t| - 1 ensures t[j] != ':' {
          assert t[..|t| - 1][j] == t[j];
        }
      }
    }
  }

  /** The attempt at the start of a non-space run succeeds as the token reading says. */
  lemma MatchAtToken(s: string)
    requires RunLen(s) >= 1
    ensures var q := RunLen(s);
      MatchAt(s) == match TokenGroup(s[..q]) case Some(g) => Some((g, q)) case None => None
  {
    var q := RunLen(s);
    var t := s[..q];
    assert t[..|t| - 1] == s[..q - 1];
    var lc := LastIndex(s[..q - 1], ':');
    var bt := Backtrack(s, q, q);
    if bt.Some? {
      var k := bt.value;
      assert s[..q - 1][k] == ':';
      assert lc.Some? && lc.value >= k;
      assert forall j :: 0 <= j < q - 1 ==> s[..q - 1][j] == s[j];
      assert t[..k] == s[..k];
    } else {
      assert forall j :: 0 <= j < q - 1 ==> s[..q - 1][j] == s[j];
    }
  }

  /** When the attempt at the start of a run fails, no later attempt inside that run succeeds. */
  lemma {:induction false} NoMatchSkipsRun(s: string)
    requires RunLen(s) >= 1 && MatchAt(s).None?
    ensures Groups(s) == Groups(s[RunLen(s)..])
    decreases RunLen(s)
  {
    var q := RunLen(s);
    var s' := s[1..];
    assert RunLen(s) == 1 + RunLen(s');
    if q > 1 {
      assert Backtrack(s, q, q).None?;
      forall j | 1 <= j && j + 1 < q - 1 ensures s'[j] != ':' {
        assert s'[j] == s[j + 1];
      }
      assert MatchAt(s').None?;
      NoMatchSkipsRun(s');
      assert s'[q - 1..] == s[q..];
    }
  }

  /** The regular-expression scan and the token-by-token reading give the same groups. */
  lemma {:induction false} GroupsByToken(s: string)
    ensures Groups(s) == TokenGroups(Tokens(s))
    decreases |s|
  {
    if s == [] {
    } else if IsSpace(s[0]) {
      assert RunLen(s) == 0;
      GroupsByToken(s[1..]);
    } else {
      var q := RunLen(s);
      MatchAtToken(s);
      GroupsByToken(s[q..]);
      assert Tokens(s) == [s[..q]] + Tokens(s[q..]);
      assert TokenGroups(Tokens(s)) ==
        (match TokenGroup(s[..q]) case Some(g) => [g] case None => []) + TokenGroups(Tokens(s[q..]));
      if MatchAt(s).None? {
        NoMatchSkipsRun(s);
      }
    }
  }

  /** A cross-reference header: the server name, then " group:article" for each posting. */
  function XrefLine(server: string, postings: seq<(string, string)>): string {
    server + Postings(postings)
  }

  function Postings(postings: seq<(string, string)>): string {
    if postings == [] then []
    else " " + postings[0].0 + ":" + postings[0].1 + Postings(postings[1..])
  }

  predicate WellFormedPosting(p: (string, string)) {
    p.0 != [] && NoSpace(p.0) && p.1 != [] && NoSpace(p.1) && NoColon(p.1)
  }

  /** The group of every posting, in order. */
  function GroupNames(postings: seq<(string, string)>): seq<string> {
    if postings == [] then [] else [postings[0].0] + GroupNames(postings[1..])
  }

  /** A run of non-space characters followed by a space or by nothing is read as one token. */
  lemma TokensLead(t: string, rest: string)
    requires t != [] && NoSpace(t)
    requires rest == [] || IsSpace(rest[0])
    ensures Tokens(t + rest) == [t] + Tokens(rest)
  {
    var s := t + rest;
    var q := RunLen(s);
    assert forall i :: 0 <= i < |t| ==> s[i] == t[i];
    assert |t| < |s| ==> s[|t|] == rest[0];
    assert s[..q] == t && s[q..] == rest;
  }

  /** One "group:article" posting is one token, and it names its group. */
  lemma PostingToken(p: (string, string))
    requires WellFormedPosting(p)
    ensures var t := p.0 + ":" + p.1; t != [] && NoSpace(t) && TokenGroup(t) == Some(p.0)
  {
    var (g, n) := p;
    var t := g + ":" + n;
    forall i | 0 <= i < |t| ensures !IsSpace(t[i]) {
      assert i < |g| ==> t[i] == g[i];
      assert i > |g| ==> t[i] == n[i - |g| - 1];
    }
    var u := t[..|t| - 1];
    var lc := LastIndex(u, ':');
    assert u[|g|] == ':';
    assert lc.Some? && lc.value >= |g|;
    assert forall j :: |g| < j < |u| ==> u[j] == n[j - |g| - 1];
    assert t[..|g|] == g;
  }

  /** Postings start with a space, when there are any. */
  lemma PostingsLead(postings: seq<(string, string)>)
    ensures Postings(postings) == [] || IsSpace(Postings(postings)[0])
  {
    if postings != [] {
      assert Postings(postings)[0] == ' ';
    }
  }

  /** The first posting is read as one token, ahead of the tokens of the others. */
  lemma PostingsTokens(postings: seq<(string, string)>)
    requires postings != [] && WellFormedPosting(postings[0])
    ensures Tokens(Postings(postings))
      == [postings[0].0 + ":" + postings[0].1] + Tokens(Postings(postings[1..]))
  {
    var t := postings[0].0 + ":" + postings[0].1;
    var rest := Postings(postings[1..]);
    var tr := t + rest;
    PostingToken(postings[0]);
    PostingsLead(postings[1..]);
    PostingRegroup(postings[0].0, postings[0].1, rest);
    assert Postings(postings) == [' '] + tr;
    assert Tokens([' '] + tr) == Tokens(tr);
    TokensLead(t, rest);
  }

  /** A posting as written, regrouped as a space before the token and the rest. */
  lemma PostingRegroup(group: string, article: string, rest: string)
    ensures " " + group + ":" + article + rest == [' '] + ((group + ":" + article) + rest)
  {
  }

  lemma {:induction false} PostingTokens(postings: seq<(string, string)>)
    requires forall i :: 0 <= i < |postings| ==> WellFormedPosting(postings[i])
    ensures TokenGroups(Tokens(Postings(postings))) == GroupNames(postings)
  {
    if postings != [] {
      var t := postings[0].0 + ":" + postings[0].1;
      var ts := Tokens(Postings(postings[1..]));
      PostingsTokens(postings);
      PostingToken(postings[0]);
      calc {
        TokenGroups(Tokens(Postings(postings)));
        TokenGroups([t] + ts);
        { assert ([t] + ts)[0] == t && ([t] + ts)[1..] == ts; }
        [postings[0].0] + TokenGroups(ts);
        { PostingTokens(postings[1..]); }
        [postings[0].0] + GroupNames(postings[1..]);
        GroupNames(postings);
      }
    }
  }

  /**
   * Reading back a header: the server name (which has no ':') contributes nothing, and every
   * "group:article" posting contributes its group, in order.
   */
  lemma XrefGroups(server: string, postings: seq<(string, string)>)
    requires NoSpace(server) && NoColon(server)
    requires forall i :: 0 <= i < |postings| ==> WellFormedPosting(postings[i])
    ensures Groups(XrefLine(server, postings)) == GroupNames(postings)
  {
    var rest := Postings(postings);
    GroupsByToken(XrefLine(server, postings));
    PostingTokens(postings);
    PostingsLead(postings);
    if server != [] {
      TokensLead(server, rest);
      TokenGroupNone(server);
      assert TokenGroups(Tokens(XrefLine(server, postings))) == TokenGroups(Tokens(rest));
    } else {
      assert XrefLine(server, postings) == rest;
    }
  }
}

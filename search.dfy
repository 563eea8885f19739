/**
 * The room search bar's query language. A query is trimmed, scanned character by
 * character into plain text, a `%whiteboard;` section and an `@owner;` section,
 * and the plain text is then searched for `isPublic=`/`isActive=` flags.
 *
 * The two regular expressions of the parser (the 24-character room id and the
 * flag keyword) are not modelled as regular expressions: `Matchers` carries them
 * as functions, and `Sound` states the little the model relies on.
 */
module Search {
  import opened Wrappers
  import opened Database

  // ---------------------------------------------------------------------------
  // Trimming
  // ---------------------------------------------------------------------------

  /** The characters JavaScript's `trim` removes: white space and line terminators. */
  predicate IsSpace(c: char)
  {
    c == ' ' || c == '\t' || c == '\n' || c == '\r' || c == '\U{000B}' || c == '\U{000C}'
    || c == '\U{00A0}' || c == '\U{1680}' || ('\U{2000}' <= c <= '\U{200A}')
    || c == '\U{2028}' || c == '\U{2029}' || c == '\U{202F}' || c == '\U{205F}'
    || c == '\U{3000}' || c == '\U{FEFF}'
  }

  function TrimStart(s: string): (r: string)
    ensures |r| <= |s| && r == s[|s| - |r|..]
    ensures r == [] || !IsSpace(r[0])
    ensures forall i :: 0 <= i < |s| - |r| ==> IsSpace(s[i])
  {
    if s != [] && IsSpace(s[0]) then TrimStart(s[1..]) else s
  }

  function TrimEnd(s: string): (r: string)
    ensures |r| <= |s| && r == s[..|r|]
    ensures r == [] || !IsSpace(r[|r| - 1])
    ensures forall i :: |r| <= i < |s| ==> IsSpace(s[i])
  {
    if s != [] && IsSpace(s[|s| - 1]) then TrimEnd(s[..|s| - 1]) else s
  }

  /**
   * `s` without its leading and trailing white space: a slice of `s` that neither
   * starts nor ends with white space, everything cut off being white space.
   */
  function Trim(s: string): (r: string)
    ensures Lead(s) + |r| <= |s| && r == s[Lead(s)..Lead(s) + |r|]
    ensures forall k :: Lead(s) + |r| <= k < |s| ==> IsSpace(s[k])
    ensures Unpadded(r)
  {
    var t := TrimStart(s);
    var r := TrimEnd(t);
    assert r == s[Lead(s)..Lead(s) + |r|];
    r
  }

  /** The number of white-space characters `s` starts with. */
  function Lead(s: string): (n: nat)
    ensures n <= |s| && forall k :: 0 <= k < n ==> IsSpace(s[k])
    ensures n == |s| || !IsSpace(s[n])
  {
    |s| - |TrimStart(s)|
  }

  /** Neither starts nor ends with white space. */
  predicate Unpadded(s: string)
  {
    s == [] || (!IsSpace(s[0]) && !IsSpace(s[|s| - 1]))
  }

  /** Trimming twice is trimming once. */
  lemma TrimIdempotent(s: string)
    ensures Trim(Trim(s)) == Trim(s)
  {
    var r := Trim(s);
    TrimClean(r);
  }

  /** A string that neither starts nor ends with white space is its own trim. */
  lemma TrimClean(r: string)
    requires Unpadded(r)
    ensures Trim(r) == r
  {
    assert TrimStart(r) == r;
  }

  // ---------------------------------------------------------------------------
  // The character scanner
  // ---------------------------------------------------------------------------

  /** The scanner's variables: the three texts it builds and its four flags. */
  datatype ScanState = ScanState(
    remQ: string, wb: string, ou: string,
    inWhiteboard: bool, inOwner: bool, justTerminated: bool, wasWhitespace: bool)
  {
    /** Neither inside a `%…;` nor inside an `@…;` section. */
    predicate Plain() { !inWhiteboard && !inOwner }
  }

  const ScanStart := ScanState("", "", "", false, false, false, true)

  /**
   * What a plain character adds to the plain text: a space first when the previous
   * character was a space, then the character itself unless it is a space.
   */
  function Emit(afterSpace: bool, c: char): string
  {
    (if afterSpace then " " else "") + (if c != ' ' then [c] else [])
  }

  /** What the scanner does with one character. */
  function ScanChar(st: ScanState, c: char): (r: ScanState)
    ensures r.wasWhitespace <==> c == ' '
    ensures |r.wb| + |r.ou| <= |st.wb| + |st.ou| + 1
    ensures c == ';' && !st.Plain() ==> r.justTerminated
  {
    var next :=
      if st.Plain() then
        if c == '%' && st.wasWhitespace then st.(justTerminated := false, inWhiteboard := true)
        else if c == '@' && st.wasWhitespace then st.(justTerminated := false, inOwner := true)
        else if st.justTerminated && c == ' ' then st
        else st.(justTerminated := false, remQ := st.remQ + Emit(st.wasWhitespace, c))
      else if st.inWhiteboard then
        if c == ';' then st.(inWhiteboard := false, justTerminated := true) else st.(wb := st.wb + [c])
      else
        if c == ';' then st.(inOwner := false, justTerminated := true) else st.(ou := st.ou + [c]);
    next.(wasWhitespace := c == ' ')
  }

  /** The scanner's state after reading `s`, one character at a time from the left. */
  function Scan(st: ScanState, s: string): (r: ScanState)
    ensures s != [] ==> (r.wasWhitespace <==> s[|s| - 1] == ' ')
    ensures |r.wb| + |r.ou| <= |st.wb| + |st.ou| + |s|
    decreases |s|
  {
    if s == [] then st else ScanChar(Scan(st, s[..|s| - 1]), s[|s| - 1])
  }

  /** The scan of the trimmed query: the loop of the parser, with its seven variables. */
  method ScanQuery(query: string) returns (remQ: string, wb: string, ou: string)
    ensures (remQ, wb, ou) == (Scan(ScanStart, query).remQ, Scan(ScanStart, query).wb, Scan(ScanStart, query).ou)
  {
    remQ, wb, ou := "", "", "";
    var isInWhiteboard, isInOwnerUname, justTerminated, wasWhitespace := false, false, false, true;
    for i := 0 to |query|
      invariant ScanState(remQ, wb, ou, isInWhiteboard, isInOwnerUname, justTerminated, wasWhitespace)
             == Scan(ScanStart, query[..i])
    {
      assert query[..i + 1][..i] == query[..i];
      var c := query[i];
      if !isInWhiteboard && !isInOwnerUname {
        if c == '%' && wasWhitespace {
          justTerminated := false;
          isInWhiteboard := true;
        } else if c == '@' && wasWhitespace {
          justTerminated := false;
          isInOwnerUname := true;
        } else if justTerminated && c == ' ' {
          wasWhitespace := true;
        } else {
          justTerminated := false;
          ghost var remQ0 := remQ;
          if wasWhitespace { remQ := remQ + " "; }
          if c != ' ' { remQ := remQ + [c]; }
          assert remQ == remQ0 + Emit(wasWhitespace, c);
        }
      } else if isInWhiteboard {
        if c == ';' {
          isInWhiteboard := false;
          justTerminated := true;
        } else {
          wb := wb + [c];
        }
      } else if isInOwnerUname {
        if c == ';' {
          isInOwnerUname := false;
          justTerminated := true;
        } else {
          ou := ou + [c];
        }
      }
      wasWhitespace := c == ' ';
    }
    assert query[..|query|] == query;
  }

  /** Reading `a` then `b` is reading `a + b`. */
  lemma {:induction false} ScanAppend(st: ScanState, a: string, b: string)
    ensures Scan(st, a + b) == Scan(Scan(st, a), b)
    decreases |b|
  {
    if b == [] {
      assert a + b == a;
    } else {
      var b' := b[..|b| - 1];
      assert (a + b)[..|a + b| - 1] == a + b';
      ScanAppend(st, a, b');
    }
  }

  /**
   * The scanner never puts a `;` into the whiteboard or owner name, is never inside
   * both sections at once, and only ever appends to the three texts.
   */
  lemma {:induction false} ScanKeepsNamesClean(st: ScanState, s: string)
    requires ';' !in st.wb && ';' !in st.ou && !(st.inWhiteboard && st.inOwner)
    ensures var st' := Scan(st, s);
      && ';' !in st'.wb && ';' !in st'.ou && !(st'.inWhiteboard && st'.inOwner)
      && st.remQ <= st'.remQ && st.wb <= st'.wb && st.ou <= st'.ou
    decreases |s|
  {
    if s != [] {
      ScanKeepsNamesClean(st, s[..|s| - 1]);
    }
  }

  /** What the plain text `s` adds to `remQ` when read from a plain state. */
  function Emitted(wasWhitespace: bool, s: string): string
    decreases |s|
  {
    if s == [] then []
    else
      var s' := s[..|s| - 1];
      Emitted(wasWhitespace, s') + Emit(AfterSpace(wasWhitespace, s'), s[|s| - 1])
  }

  /** `s` without its last character when that is a space. */
  function DropTrailingSpace(s: string): string
  {
    if s != [] && s[|s| - 1] == ' ' then s[..|s| - 1] else s
  }

  /**
   * Plain text is copied with its spaces moved one place right: each space is
   * written only in front of the character after it, so the text arrives whole
   * except for one trailing space, behind a space when it followed white space.
   */
  lemma {:induction false} EmittedText(w: bool, s: string)
    ensures Emitted(w, s) == if s == [] then [] else (if w then " " else "") + DropTrailingSpace(s)
    decreases |s|
  {
    if s != [] {
      var s', c := s[..|s| - 1], s[|s| - 1];
      var lead := if w then " " else "";
      if s' == [] {
        assert s == [c];
      } else {
        var d, e := DropTrailingSpace(s'), Emit(AfterSpace(w, s'), c);
        assert Emitted(w, s') == lead + d by { EmittedText(w, s'); }
        assert Emitted(w, s) == lead + d + e;
        assert lead + d + e == lead + (d + e);
        assert d + e == DropTrailingSpace(s) by { DropStep(s); }
      }
    }
  }

  /** Reading one more character after non-empty plain text. */
  lemma DropStep(s: string)
    requires |s| >= 2
    ensures DropTrailingSpace(s[..|s| - 1]) + Emit(s[|s| - 2] == ' ', s[|s| - 1]) == DropTrailingSpace(s)
  {
    var s', c := s[..|s| - 1], s[|s| - 1];
    assert s == s' + [c];
    if s[|s| - 2] == ' ' {
      var core := s'[..|s'| - 1];
      assert s' == core + " ";
      assert core + " " + (if c != ' ' then [c] else []) == core + (" " + (if c != ' ' then [c] else []));
    }
  }

  /** Whether the character read after `s` follows white space. */
  function AfterSpace(wasWhitespace: bool, s: string): bool
  {
    if s == [] then wasWhitespace else s[|s| - 1] == ' '
  }

  /** No `%` or `@` in `s` opens a section: none of them follows white space. */
  predicate NoSectionOpens(wasWhitespace: bool, s: string)
    decreases |s|
  {
    s == [] ||
      var s', c := s[..|s| - 1], s[|s| - 1];
      NoSectionOpens(wasWhitespace, s') && !((c == '%' || c == '@') && AfterSpace(wasWhitespace, s'))
  }

  /**
   * Plain text is copied with its spaces moved one place right: every character is
   * preceded by `' '` when the character before it was a space, a space itself is
   * never copied, so the text arrives whole except for one trailing space and with
   * a space in front when the scan started after white space. A `%` or `@` that
   * does not follow white space is copied as ordinary text.
   */
  lemma {:induction false} PlainText(st: ScanState, s: string)
    requires st.Plain() && !st.justTerminated
    requires NoSectionOpens(st.wasWhitespace, s)
    ensures Scan(st, s) == st.(
      remQ := st.remQ + Emitted(st.wasWhitespace, s),
      wasWhitespace := AfterSpace(st.wasWhitespace, s))
    decreases |s|
  {
    if s != [] {
      var s', c := s[..|s| - 1], s[|s| - 1];
      PlainText(st, s');
      var e', e := Emitted(st.wasWhitespace, s'), Emit(AfterSpace(st.wasWhitespace, s'), c);
      assert st.remQ + e' + e == st.remQ + (e' + e);
    }
  }

  /**
   * After `%` (or `@`) following white space, every character up to the next `;`
   * goes into the whiteboard (or owner) name, the `;` closes the section, and
   * the plain text is untouched.
   */
  lemma Section(st: ScanState, open: char, name: string)
    requires st.Plain() && st.wasWhitespace && (open == '%' || open == '@')
    requires ';' !in name
    ensures Scan(st, [open] + name + [';']) == st.(
      wb := if open == '%' then st.wb + name else st.wb,
      ou := if open == '@' then st.ou + name else st.ou,
      justTerminated := true, wasWhitespace := false)
  {
    var inSection := ScanChar(st, open);
    assert Scan(st, [open]) == inSection by {
      assert [open][..0] == [];
    }
    SectionBody(inSection, name);
    ScanAppend(st, [open], name);
    assert ([open] + name + [';'])[..|name| + 1] == [open] + name;
  }

  lemma {:induction false} SectionBody(st: ScanState, name: string)
    requires st.inWhiteboard != st.inOwner && ';' !in name
    ensures Scan(st, name) == st.(
      wb := if st.inWhiteboard then st.wb + name else st.wb,
      ou := if st.inOwner then st.ou + name else st.ou,
      wasWhitespace := if name == [] then st.wasWhitespace else name[|name| - 1] == ' ')
    decreases |name|
  {
    if name != [] {
      var n' := name[..|name| - 1];
      assert n' + [name[|name| - 1]] == name;
      SectionBody(st, n');
    }
  }

  /** Spaces right after a closing `;` are swallowed, leaving every text as it was. */
  lemma {:induction false} SpacesAfterSection(st: ScanState, spaces: string)
    requires st.Plain() && st.justTerminated
    requires forall i :: 0 <= i < |spaces| ==> spaces[i] == ' '
    ensures Scan(st, spaces) == st.(wasWhitespace := if spaces == [] then st.wasWhitespace else true)
    decreases |spaces|
  {
    if spaces != [] {
      SpacesAfterSection(st, spaces[..|spaces| - 1]);
    }
  }

  // ---------------------------------------------------------------------------
  // Flags and the parsed query
  // ---------------------------------------------------------------------------

  datatype FlagKey = IsPublicKey | IsActiveKey

  /** One match of the flag keyword: which flag, and the text after its `=`. */
  datatype KeywordMatch = KeywordMatch(key: FlagKey, value: string)

  /** The parser's regular expressions, as functions of the text they search. */
  datatype Matchers = Matchers(
    roomIdMatch: string -> Option<string>,       // the first 24-character room id, if any
    keywordMatches: string -> seq<KeywordMatch>, // every flag keyword, in order
    textBeforeKeyword: string -> string)         // the text before the first flag keyword

  function KeyText(k: FlagKey): string
  {
    match k
    case IsPublicKey => "isPublic"
    case IsActiveKey => "isActive"
  }

  predicate Occurs(t: string, s: string)
  {
    exists i :: 0 <= i <= |s| && t <= s[i..]
  }

  /** What the regular expressions guarantee and the model relies on: every match is text of the input. */
  ghost predicate Sound(m: Matchers)
  {
    && (forall s :: m.roomIdMatch(s).Some? ==> |m.roomIdMatch(s).value| == 24 && Occurs(m.roomIdMatch(s).value, s))
    && (forall s, k :: k in m.keywordMatches(s) ==> Occurs(KeyText(k.key) + "=" + k.value, s))
    && (forall s :: m.textBeforeKeyword(s) <= s)
  }

  /** Whether a flag value means yes: its first character is one of `yYtT1`. */
  predicate Yes(value: string): (b: bool)
    ensures value == "" ==> b
    ensures value != "" && value[0] in "nNfF0" ==> !b
    ensures value != "" && value[0] in "yYtT1" ==> b
  {
    value == "" || value[0] in "yYtT1"
  }

  /** The value of the first match for `key`, or None when no match has that key. */
  function FirstFlag(ms: seq<KeywordMatch>, key: FlagKey): (r: Option<bool>)
    ensures r.None? ==> forall i :: 0 <= i < |ms| ==> ms[i].key != key
  {
    if ms == [] then None
    else if ms[0].key == key then Some(Yes(ms[0].value))
    else FirstFlag(ms[1..], key)
  }

  /** A flag is absent exactly when no match has its key. */
  lemma {:induction false} FirstFlagAbsent(ms: seq<KeywordMatch>, key: FlagKey)
    ensures FirstFlag(ms, key).None? <==> forall i :: 0 <= i < |ms| ==> ms[i].key != key
  {
    if ms != [] && ms[0].key != key {
      FirstFlagAbsent(ms[1..], key);
      assert forall i :: 1 <= i < |ms| ==> ms[i] == ms[1..][i - 1];
    }
  }

  /** The first match for a key decides the flag; later matches for it are ignored. */
  lemma {:induction false} FirstFlagWins(ms: seq<KeywordMatch>, key: FlagKey, i: nat)
    requires i < |ms| && ms[i].key == key
    requires forall j :: 0 <= j < i ==> ms[j].key != key
    ensures FirstFlag(ms, key) == Some(Yes(ms[i].value))
  {
    if i > 0 {
      assert ms[0].key != key;
      FirstFlagWins(ms[1..], key, i - 1);
    }
  }

  /** The loop over the keyword matches: each flag is set by its first match only. */
  method ReadFlags(ms: seq<KeywordMatch>) returns (isPublic: Option<bool>, isActive: Option<bool>)
    ensures isPublic == FirstFlag(ms, IsPublicKey) && isActive == FirstFlag(ms, IsActiveKey)
  {
    isPublic, isActive := None, None;
    for i := 0 to |ms|
      invariant isPublic == FirstFlag(ms[..i], IsPublicKey)
      invariant isActive == FirstFlag(ms[..i], IsActiveKey)
    {
      FirstFlagSnoc(ms[..i], ms[i], IsPublicKey);
      FirstFlagSnoc(ms[..i], ms[i], IsActiveKey);
      assert ms[..i + 1] == ms[..i] + [ms[i]];
      var yes := Yes(ms[i].value);
      match ms[i].key
      case IsPublicKey =>
        if isPublic.None? { isPublic := Some(yes); }
      case IsActiveKey =>
        if isActive.None? { isActive := Some(yes); }
    }
    assert ms[..|ms|] == ms;
  }

  lemma {:induction false} FirstFlagSnoc(ms: seq<KeywordMatch>, k: KeywordMatch, key: FlagKey)
    ensures FirstFlag(ms + [k], key)
         == if FirstFlag(ms, key).Some? then FirstFlag(ms, key)
            else if k.key == key then Some(Yes(k.value)) else None
  {
    if ms == [] {
      assert [k][1..] == [];
    } else {
      assert (ms + [k])[0] == ms[0] && (ms + [k])[1..] == ms[1..] + [k];
      FirstFlagSnoc(ms[1..], k, key);
    }
  }

  /** The parsed query: room id, names and flags, every key absent unless found. */
  function ParsedQuery(m: Matchers, query: string): (p: SearchQuery)
    ensures p.roomId == m.roomIdMatch(Trim(query))
    ensures p.roomName.Some? ==> Unpadded(p.roomName.value)
    ensures p.owner.Some? ==> Unpadded(p.owner.value)
    ensures p.whiteboardName.Some? ==> Unpadded(p.whiteboardName.value)
  {
    ParseTrimmed(m, Trim(query))
  }

  /** The filters found in an already trimmed query `q`. */
  function ParseTrimmed(m: Matchers, q: string): (p: SearchQuery)
  {
    var st := Scan(ScanStart, q);
    var ms := m.keywordMatches(st.remQ);
    var before := m.textBeforeKeyword(st.remQ);
    SearchQuery(
      m.roomIdMatch(q),
      if before != "" then Some(Trim(before)) else None,
      if st.ou != "" then Some(Trim(st.ou)) else None,
      if st.wb != "" then Some(Trim(st.wb)) else None,
      FirstFlag(ms, IsPublicKey),
      FirstFlag(ms, IsActiveKey))
  }

  /** `parseSearch`: trim, take the room id, scan, read the flags, then fill in the keys. */
  method ParseSearch(m: Matchers, query: string) returns (p: SearchQuery)
    ensures p == ParsedQuery(m, query)
  {
    var q := Trim(query);
    var roomId := m.roomIdMatch(q);
    var remQ, wb, ou := ScanQuery(q);
    var isPublic, isActive := ReadFlags(m.keywordMatches(remQ));
    remQ := m.textBeforeKeyword(remQ);
    var roomName := if remQ != "" then Some(Trim(remQ)) else None;
    var whiteboardName := if wb != "" then Some(Trim(wb)) else None;
    var owner := if ou != "" then Some(Trim(ou)) else None;
    p := SearchQuery(roomId, roomName, owner, whiteboardName, isPublic, isActive);
  }

  /** Neither the whiteboard name nor the owner name of a parsed query contains `;`. */
  lemma ParsedNamesExcludeSemicolon(m: Matchers, query: string)
    ensures ParsedQuery(m, query).whiteboardName.Some? ==> ';' !in ParsedQuery(m, query).whiteboardName.value
    ensures ParsedQuery(m, query).owner.Some? ==> ';' !in ParsedQuery(m, query).owner.value
  {
    var q := Trim(query);
    var st := Scan(ScanStart, q);
    ScanKeepsNamesClean(ScanStart, q);
    TrimKeepsOut(st.wb, ';');
    TrimKeepsOut(st.ou, ';');
  }

  lemma OnlyEmptyOccursInEmpty(t: string)
    ensures Occurs(t, "") ==> t == ""
  {
  }

  lemma TrimKeepsOut(s: string, c: char)
    requires c !in s
    ensures c !in Trim(s)
  {
  }

  // ---------------------------------------------------------------------------
  // Sending the search
  // ---------------------------------------------------------------------------

  /** What submitting a query does with the results area. */
  datatype SearchAction =
    | ClearResults              // nothing parsed from a blank query
    | NothingToSearch           // nothing parsed, but the query was not blank
    | SendRequest(params: SearchQuery)

  const NoFilters := SearchQuery(None, None, None, None, None, None)

  /** A request is sent only when the parse produced at least one key. */
  function PerformSearch(m: Matchers, query: string): (a: SearchAction)
    ensures a.SendRequest? <==> ParsedQuery(m, query) != NoFilters
    ensures a.SendRequest? ==> a.params == ParsedQuery(m, query)
    ensures a.NothingToSearch? <==> ParsedQuery(m, query) == NoFilters && Trim(query) != ""
  {
    var p := ParsedQuery(m, query);
    if p == NoFilters then (if Trim(query) != "" then NothingToSearch else ClearResults)
    else SendRequest(p)
  }

  /** A blank query sends no request, whatever sound matchers are used. */
  lemma BlankQuerySendsNothing(m: Matchers, query: string)
    requires Sound(m)
    requires Trim(query) == ""
    ensures PerformSearch(m, query) == ClearResults
  {
    assert ParsedQuery(m, query) == NoFilters by { EmptyQueryHasNoFilters(m); }
  }

  /** An empty query yields no filter at all. */
  lemma EmptyQueryHasNoFilters(m: Matchers)
    requires Sound(m)
    ensures ParseTrimmed(m, "") == NoFilters
  {
    assert Scan(ScanStart, "") == ScanStart;
    assert m.roomIdMatch("").None?;
    var ms := m.keywordMatches("");
    if ms != [] {
      assert ms[0] in ms;
      OnlyEmptyOccursInEmpty(KeyText(ms[0].key) + "=" + ms[0].value);
    }
    assert m.textBeforeKeyword("") == "";
  }
}

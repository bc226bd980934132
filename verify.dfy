/**
  Post-bootstrap verification: after the conversation, the workspace files are inspected to
  decide whether the model completed the identity ritual. Four fixed checks are run:
  BOOTSTRAP.md deleted, IDENTITY.md fields set, USER.md fields set, SOUL.md personalised.

  A workspace file is `Some(content)` when it exists and `None` when it does not.
*/
module Verify {
  import opened Common
  import opened Text

  // ---------------------------------------------------------------------------------------
  // Constants

  /** Placeholder phrases of the IDENTITY.md template. */
  const IdentityPlaceholders: set<string> := {
    "pick something you like",
    "ai? robot? familiar? ghost in the machine? something weirder?",
    "how do you come across? sharp? warm? chaotic? calm?",
    "your signature \U{2014} pick one that feels right",
    "your signature - pick one that feels right",
    "workspace-relative path, http(s) url, or data uri"
  }

  /** Placeholder values of the USER.md template. */
  const UserPlaceholders: set<string> := {"", "(optional)"}

  const IdentityRequired: set<string> := {"name", "creature", "vibe", "emoji"}
  const UserRequired: set<string> := {"name", "timezone"}

  /** The key USER.md templates sometimes use instead of `name`. */
  const NameAlias := "what to call them"

  const SoulMarkers: seq<string> := [
    "Fill this in during your first conversation",
    "You're not a chatbot. You're becoming someone."
  ]

  /**
    Python iterates a set in an order fixed by string hashing, which varies between
    processes. `order` stands for that order: it lists each element of `s` exactly once.
  */
  predicate Enumerates(order: seq<string>, s: set<string>) {
    |order| == |s| && (forall i :: 0 <= i < |order| ==> order[i] in s) && (forall k :: k in s ==> k in order)
  }

  // ---------------------------------------------------------------------------------------
  // Records

  datatype Workspace = Workspace(
    bootstrap: Option<string>,
    identity: Option<string>,
    user: Option<string>,
    soul: Option<string>)

  /** The result of checking one workspace file. */
  datatype FileCheck = FileCheck(
    filename: string,
    present: bool,
    passed: bool,
    details: string,
    content: string)

  /** The aggregate of the four checks; `score` lies in [0, 1]. */
  datatype VerificationResult = VerificationResult(
    modelName: string,
    checks: seq<FileCheck>,
    allPassed: bool,
    score: real)

  // ---------------------------------------------------------------------------------------
  // Markdown clean-up

  /**
    Strips leading and trailing markdown markers and whitespace. The substitution of
    `^[*_\s]+|[*_\s]+$` by the empty string removes exactly the maximal marker run at
    each end.
  */
  function StripMdMarkers(s: string): string {
    StripBy(s, Markdown)
  }

  /** A stripped value has no marker at either end, and stripping again changes nothing. */
  lemma StripMdMarkersNormalises(s: string)
    ensures var r := StripMdMarkers(s); r != [] ==> !InClass(r[0], Markdown) && !InClass(r[|r| - 1], Markdown)
    ensures StripMdMarkers(StripMdMarkers(s)) == StripMdMarkers(s)
  {
    StripByEnds(s, Markdown);
    StripByIdempotent(s, Markdown);
  }

  /** Markers in front of a value do not change what it strips to. */
  lemma StripMdMarkersSkipsPrefix(m: string, s: string)
    requires forall i :: 0 <= i < |m| ==> InClass(m[i], Markdown)
    ensures StripMdMarkers(m + s) == StripMdMarkers(s)
  {
    LStripSkipsPrefix(m, s, Markdown);
  }

  /** A field value after marker stripping, then removal of `(` and `)` wrappers and whitespace. */
  function CleanValue(v: string): string {
    Strip(StripChar(StripChar(StripMdMarkers(v), '('), ')'))
  }

  /** `CleanValue` on the part `s[lo..hi]`, as a window of `s`. */
  function CleanWindow(s: string, lo: nat, hi: nat): (w: (nat, nat))
    requires lo <= hi <= |s|
    ensures lo <= w.0 <= w.1 <= hi
  {
    var m := StripWindow(s, lo, hi, Markdown);
    var a := StripWindow(s, m.0, m.1, Only('('));
    var b := StripWindow(s, a.0, a.1, Only(')'));
    StripWindow(s, b.0, b.1, Whitespace)
  }

  /** The cleaning window holds exactly the cleaned value. */
  lemma CleanWindowSlice(s: string, lo: nat, hi: nat)
    requires lo <= hi <= |s|
    ensures var w := CleanWindow(s, lo, hi); s[w.0..w.1] == CleanValue(s[lo..hi])
  {
    var m := StripWindow(s, lo, hi, Markdown);
    var a := StripWindow(s, m.0, m.1, Only('('));
    var b := StripWindow(s, a.0, a.1, Only(')'));
    StripWindowSlice(s, lo, hi, Markdown);
    StripWindowSlice(s, m.0, m.1, Only('('));
    StripWindowSlice(s, a.0, a.1, Only(')'));
    StripWindowSlice(s, b.0, b.1, Whitespace);
  }

  // ---------------------------------------------------------------------------------------
  // Matching one bullet line: ^[-*]\s*\*{0,2}(\w[\w\s]*?)\*{0,2}\s*:\s*(.*)$
  //
  // The pattern is matched against the stripped line, the window `s[lo..hi]`; a match is
  // reported as the bounds of group 1, `s[b..p]`, and the start `v` of group 2, `s[v..hi]`.
  // Backtracking never changes the outcome: the greedy runs `\s*` and `\*{0,2}` can only
  // give back characters that the following item cannot match, and the lazy group ends at
  // the first position where `\*{0,2}\s*:` matches.

  /** `\*{0,2}` at `i`, greedy: the index after at most two stars. */
  function StarsEnd(s: string, i: nat, hi: nat): (r: nat)
    requires i <= hi <= |s|
    ensures i <= r <= i + 2 && r <= hi
    ensures forall j :: i <= j < r ==> s[j] == '*'
    ensures r < i + 2 && r < hi ==> s[r] != '*'
  {
    if i < hi && s[i] == '*' then
      if i + 1 < hi && s[i + 1] == '*' then i + 2 else i + 1
    else i
  }

  /** Whether `\*{0,2}\s*:` matches at `p`. */
  predicate ColonAt(s: string, p: nat, hi: nat)
    requires p <= hi <= |s|
  {
    var r := ClassEnd(s, StarsEnd(s, p, hi), hi, Whitespace);
    r < hi && s[r] == ':'
  }

  predicate IsKeyChar(c: char) { IsWord(c) || IsSpace(c) }

  /**
    The lazy group `[\w\s]*?` followed by `\*{0,2}\s*:`: the first position at or after
    `p`, reached over key characters only, where the colon part matches.
  */
  function KeyEnd(s: string, p: nat, hi: nat): (r: Option<nat>)
    requires p <= hi <= |s|
    ensures r.Some? ==> p <= r.value <= hi && ColonAt(s, r.value, hi)
    ensures r.Some? ==> forall q :: p <= q < r.value ==> IsKeyChar(s[q])
    decreases hi - p
  {
    if ColonAt(s, p, hi) then Some(p)
    else if p < hi && IsKeyChar(s[p]) then KeyEnd(s, p + 1, hi)
    else None
  }

  /**
    The lazy group is as short as it can be: no earlier position matches the colon part,
    and there is no end exactly when every matching position lies past a non-key character.
  */
  lemma {:induction false} KeyEndIsFirst(s: string, p: nat, hi: nat)
    requires p <= hi <= |s|
    ensures var r := KeyEnd(s, p, hi);
      (r.Some? ==> forall q {:trigger ColonAt(s, q, hi)} :: p <= q < r.value ==> !ColonAt(s, q, hi)) &&
      (r.None? ==> forall q {:trigger ColonAt(s, q, hi)} :: p <= q <= hi && ColonAt(s, q, hi) ==>
        exists j :: p <= j < q && !IsKeyChar(s[j]))
    decreases hi - p
  {
    hide ColonAt;
    if ColonAt(s, p, hi) {
      assert KeyEnd(s, p, hi) == Some(p);
    } else if p < hi && IsKeyChar(s[p]) {
      assert KeyEnd(s, p, hi) == KeyEnd(s, p + 1, hi);
      KeyEndIsFirst(s, p + 1, hi);
    } else {
      assert KeyEnd(s, p, hi) == None;
      hide KeyEnd;
      forall q | p <= q <= hi && ColonAt(s, q, hi) ensures exists j :: p <= j < q && !IsKeyChar(s[j]) {
        assert q != p;
        assert !IsKeyChar(s[p]);
      }
    }
  }

  /** The match of the field pattern on `s[lo..hi]`: group 1 is `s[b..p]`, group 2 is `s[v..hi]`. */
  function FieldMatch(s: string, lo: nat, hi: nat): (m: Option<(nat, nat, nat)>)
    requires lo <= hi <= |s|
    ensures m.Some? ==> lo < hi && (s[lo] == '-' || s[lo] == '*')
    ensures m.Some? ==> var (b, p, v) := m.value;
      lo < b < p <= v <= hi && IsWord(s[b]) && (forall q :: b <= q < p ==> IsKeyChar(s[q])) &&
      (v < hi ==> !IsSpace(s[v]))
  {
    if lo == hi || !(s[lo] == '-' || s[lo] == '*') then None
    else
      var b := StarsEnd(s, ClassEnd(s, lo + 1, hi, Whitespace), hi);
      if b < hi && IsWord(s[b]) then
        match KeyEnd(s, b + 1, hi)
        case None => None
        case Some(p) =>
          var colon := ClassEnd(s, StarsEnd(s, p, hi), hi, Whitespace);
          Some((b, p, ClassEnd(s, colon + 1, hi, Whitespace)))
      else None
  }

  /** `^[-*]\s` on `s[lo..hi]`: a line that starts a new bullet. */
  predicate BulletAt(s: string, lo: nat, hi: nat)
    requires lo <= hi <= |s|
  {
    hi - lo >= 2 && (s[lo] == '-' || s[lo] == '*') && IsSpace(s[lo + 1])
  }

  /** A key as the templates write it: a word character first, no whitespace last. */
  predicate KeyShaped(k: string) {
    k != [] && IsWord(k[0]) && !IsSpace(k[|k| - 1]) && forall i :: 0 <= i < |k| ==> IsKeyChar(k[i])
  }

  lemma {:induction false} KeyEndInsideKey(line: string, k: string, p: nat, e: nat)
    requires KeyShaped(k) && 4 + |k| == e < |line| && line[e] == ':'
    requires line[4..e] == k
    requires 5 <= p <= e
    ensures KeyEnd(line, p, |line|) == Some(e)
    decreases e - p
  {
    if p < e {
      NoColonInsideKey(line, k, p, e);
      hide ColonAt;
      KeyEndInsideKey(line, k, p + 1, e);
    } else {
      assert ColonAt(line, e, |line|) by {
        assert line[e] != '*' && !IsSpace(line[e]);
      }
    }
  }

  /** Strictly inside a bold key neither the colon part matches nor does the group stop. */
  lemma NoColonInsideKey(line: string, k: string, p: nat, e: nat)
    requires KeyShaped(k) && 4 + |k| == e < |line| && line[e] == ':'
    requires line[4..e] == k
    requires 5 <= p < e
    ensures !ColonAt(line, p, |line|) && IsKeyChar(line[p])
  {
    assert forall q :: 4 <= q < e ==> line[q] == k[q - 4];
    var last := e - 1;
    assert !IsSpace(line[last]) && line[last] != ':' && line[p] != '*';
    assert ClassEnd(line, StarsEnd(line, p, |line|), |line|, Whitespace) <= last;
  }

  /** The template form `- **Key:**` followed by the rest of the line matches with group 1 `Key`. */
  lemma BoldFieldLine(k: string, t: string)
    requires KeyShaped(k)
    ensures var line := "- **" + k + ":**" + t;
      FieldMatch(line, 0, |line|) == Some((4, 4 + |k|, 5 + |k|)) &&
      line[4..4 + |k|] == k && line[5 + |k|..] == "**" + t
  {
    var line := "- **" + k + ":**" + t;
    var e := 4 + |k|;
    assert line[0] == '-' && line[1] == ' ' && line[2] == '*' && line[3] == '*';
    assert line[e] == ':' && line[e + 1] == '*' && line[e + 2] == '*';
    assert line[4..e] == k;
    assert line[e + 1..] == "**" + t;
    BoldFieldMatch(line, k, t);
  }

  lemma BoldFieldMatch(line: string, k: string, t: string)
    requires KeyShaped(k) && |line| == 4 + |k| + 3 + |t|
    requires line[0] == '-' && line[1] == ' ' && line[2] == '*' && line[3] == '*'
    requires var e := 4 + |k|; line[e] == ':' && line[e + 1] == '*' && line[e + 2] == '*'
    requires line[4..4 + |k|] == k
    ensures FieldMatch(line, 0, |line|) == Some((4, 4 + |k|, 5 + |k|))
  {
    var e := 4 + |k|;
    var n := |line|;
    assert ClassEnd(line, 2, n, Whitespace) == 2;
    assert ClassEnd(line, 1, n, Whitespace) == 2;
    assert StarsEnd(line, 2, n) == 4;
    assert line[4] == k[0];
    if |k| > 1 {
      KeyEndInsideKey(line, k, 5, e);
    } else {
      assert ColonAt(line, 5, n);
    }
    assert StarsEnd(line, e, n) == e;
    assert ClassEnd(line, e, n, Whitespace) == e;
    assert ClassEnd(line, e + 1, n, Whitespace) == e + 1;
  }

  // ---------------------------------------------------------------------------------------
  // Field map

  /** The key of a match: group 1 `s[b..p]`, trimmed and lower-cased. */
  function KeyOf(s: string, b: nat, p: nat): (key: string)
    requires b < p <= |s| && IsWord(s[b])
    ensures key != [] && IsWord(key[0]) && !IsSpace(key[|key| - 1]) && Lower(key) == key
  {
    var w := StripWindow(s, b, p, Whitespace);
    KeyWindowShape(s, b, p);
    LowerIdempotent(s[w.0..w.1]);
    Lower(s[w.0..w.1])
  }

  /** A group starting with a word character trims to a non-empty key with the same first character. */
  lemma KeyWindowShape(s: string, b: nat, p: nat)
    requires b < p <= |s| && IsWord(s[b])
    ensures var w := StripWindow(s, b, p, Whitespace); var r := Lower(s[w.0..w.1]);
      r != [] && IsWord(r[0]) && !IsSpace(r[|r| - 1])
  {
    var w := StripWindow(s, b, p, Whitespace);
    assert w.0 == b;
    assert w.1 > b;
    var g := s[w.0..w.1];
    assert g[0] == s[b] && g[|g| - 1] == s[w.1 - 1];
  }

  /**
    The value of line `idx`, whose group 2 starts at `v`: the cleaned group, or, when that is
    empty, the cleaned next line if that line is non-empty and not a bullet.
  */
  function ValueOf(lines: seq<string>, idx: nat, v: nat, hi: nat): string
    requires idx < |lines| && v <= hi <= |lines[idx]|
  {
    var w := CleanWindow(lines[idx], v, hi);
    if w.0 == w.1 && idx + 1 < |lines| then
      var next := lines[idx + 1];
      var n := StripWindow(next, 0, |next|, Whitespace);
      if n.0 < n.1 && !BulletAt(next, n.0, n.1) then
        var c := CleanWindow(next, n.0, n.1);
        next[c.0..c.1]
      else ""
    else lines[idx][w.0..w.1]
  }

  /** The entry line `idx` contributes to the field map, if the stripped line matches. */
  function LineEntry(lines: seq<string>, idx: nat): (e: Option<(string, string)>)
    requires idx < |lines|
    ensures e.Some? ==> e.value.0 != [] && IsWord(e.value.0[0]) && !IsSpace(e.value.0[|e.value.0| - 1])
    ensures e.Some? ==> Lower(e.value.0) == e.value.0
  {
    var raw := lines[idx];
    var w := StripWindow(raw, 0, |raw|, Whitespace);
    match FieldMatch(raw, w.0, w.1)
    case None => None
    case Some((b, p, v)) => Some((KeyOf(raw, b, p), ValueOf(lines, idx, v, w.1)))
  }

  /** The entries of a document's lines, one per line, in order. */
  function Entries(lines: seq<string>): (es: seq<Option<(string, string)>>)
    ensures |es| == |lines|
    ensures forall j :: 0 <= j < |lines| ==> es[j] == LineEntry(lines, j)
  {
    seq(|lines|, j requires 0 <= j < |lines| => LineEntry(lines, j))
  }

  /** The field map after the first `n` entries: each entry overwrites the key it names. */
  function FieldsUpTo(entries: seq<Option<(string, string)>>, n: nat): map<string, string>
    requires n <= |entries|
  {
    if n == 0 then map[]
    else
      var fields := FieldsUpTo(entries, n - 1);
      match entries[n - 1]
      case None => fields
      case Some((k, v)) => fields[k := v]
  }

  /** The fields of a markdown document. */
  function MdFields(content: string): map<string, string> {
    var lines := SplitLines(content);
    FieldsUpTo(Entries(lines), |lines|)
  }

  /** `_parse_md_fields`: one pass over the lines, each match overwriting the key it names. */
  method ParseMdFields(content: string) returns (fields: map<string, string>)
    ensures fields == MdFields(content)
  {
    hide LineEntry;
    var lines := SplitLines(content);
    fields := map[];
    var idx := 0;
    while idx < |lines|
      invariant 0 <= idx <= |lines|
      invariant fields == FieldsUpTo(Entries(lines), idx)
    {
      var entry := LineEntry(lines, idx);
      if entry.Some? {
        fields := fields[entry.value.0 := entry.value.1];
      }
      idx := idx + 1;
    }
  }

  predicate HasKeyAt(entries: seq<Option<(string, string)>>, j: nat, k: string)
    requires j < |entries|
  {
    entries[j].Some? && entries[j].value.0 == k
  }

  /** A key is in the map iff some entry names it. */
  lemma {:induction false} FieldsKeys(entries: seq<Option<(string, string)>>, n: nat, k: string)
    requires n <= |entries|
    ensures k in FieldsUpTo(entries, n) <==> exists j :: 0 <= j < n && HasKeyAt(entries, j, k)
  {
    if n > 0 {
      FieldsKeys(entries, n - 1, k);
      if HasKeyAt(entries, n - 1, k) {
        assert k in FieldsUpTo(entries, n);
      } else if k in FieldsUpTo(entries, n) {
        assert k in FieldsUpTo(entries, n - 1);
      }
    }
  }

  /** The last entry that names a key decides its value. */
  lemma {:induction false} LastWriterWins(entries: seq<Option<(string, string)>>, n: nat, j: nat, k: string)
    requires j < n <= |entries| && HasKeyAt(entries, j, k)
    requires forall j' :: j < j' < n ==> !HasKeyAt(entries, j', k)
    ensures k in FieldsUpTo(entries, n)
    ensures FieldsUpTo(entries, n)[k] == entries[j].value.1
  {
    if j < n - 1 {
      LastWriterWins(entries, n - 1, j, k);
      assert !HasKeyAt(entries, n - 1, k);
    }
  }

  /** Every key of a parsed document is normalised: non-empty, trimmed, starting with `\w`. */
  lemma MdFieldsKeysShaped(content: string, k: string)
    requires k in MdFields(content)
    ensures k != [] && IsWord(k[0]) && !IsSpace(k[|k| - 1]) && Lower(k) == k
  {
    hide LineEntry;
    var lines := SplitLines(content);
    var entries := Entries(lines);
    FieldsKeys(entries, |entries|, k);
    var j :| 0 <= j < |entries| && HasKeyAt(entries, j, k);
    assert entries[j] == LineEntry(lines, j);
  }

  /** `- **Key:**` strips to itself, matches with group 1 `Key`, and yields the key `Key` lower-cased. */
  lemma BoldKeyLine(k: string)
    requires KeyShaped(k)
    ensures var first := "- **" + k + ":**"; var e := 4 + |k|;
      StripWindow(first, 0, |first|, Whitespace) == (0, |first|) &&
      FieldMatch(first, 0, |first|) == Some((4, e, e + 1)) &&
      KeyOf(first, 4, e) == Lower(k)
  {
    var first := "- **" + k + ":**";
    BoldFieldLine(k, "");
    assert first == "- **" + k + ":**" + "";
    BoldLineUnstripped(first);
    BoldKeyTrimmed(first, k);
  }

  lemma BoldLineUnstripped(first: string)
    requires |first| >= 2 && first[0] == '-' && first[|first| - 1] == '*'
    ensures StripWindow(first, 0, |first|, Whitespace) == (0, |first|)
  {
  }

  lemma BoldKeyTrimmed(first: string, k: string)
    requires KeyShaped(k) && 4 + |k| <= |first| && first[4..4 + |k|] == k
    ensures KeyOf(first, 4, 4 + |k|) == Lower(k)
  {
    var e := 4 + |k|;
    assert k[0] == first[4] && k[|k| - 1] == first[e - 1];
    assert StripWindow(first, 4, e, Whitespace) == (4, e);
  }

  /** Nothing but the closing `**` follows the colon, so the line's own value is empty. */
  lemma BoldValueEmpty(k: string)
    ensures var first := "- **" + k + ":**"; var e := 4 + |k|;
      var w := CleanWindow(first, e + 1, |first|); w.0 == w.1
  {
    var first := "- **" + k + ":**";
    var e := 4 + |k|;
    assert first[e + 1] == '*' && first[e + 2] == '*';
    assert StripWindow(first, e + 1, |first|, Markdown).0 == |first|;
  }

  /** `re.match(r"^[-*]\s", t)`: the stripped line `t` starts a new bullet. */
  predicate IsBullet(t: string) {
    |t| >= 2 && (t[0] == '-' || t[0] == '*') && IsSpace(t[1])
  }

  /**
    The next line seen through its stripping window: the window is non-empty and not a bullet
    exactly when `Strip(next)` is, and its cleaning window holds `CleanValue(Strip(next))`.
  */
  lemma ContinuationValue(next: string)
    ensures var n := StripWindow(next, 0, |next|, Whitespace);
      (n.0 < n.1 && !BulletAt(next, n.0, n.1) <==> Strip(next) != "" && !IsBullet(Strip(next))) &&
      var c := CleanWindow(next, n.0, n.1); next[c.0..c.1] == CleanValue(Strip(next))
  {
    var n := StripWindow(next, 0, |next|, Whitespace);
    StripWindowSlice(next, 0, |next|, Whitespace);
    assert next[0..|next|] == next;
    assert Strip(next) == next[n.0..n.1];
    CleanWindowSlice(next, n.0, n.1);
    hide *;
    BulletWindow(next, n.0, n.1);
  }

  /** `BulletAt` on a window is `IsBullet` on its slice. */
  lemma BulletWindow(s: string, lo: nat, hi: nat)
    requires lo <= hi <= |s|
    ensures BulletAt(s, lo, hi) <==> IsBullet(s[lo..hi])
  {
  }

  /**
    The value rule of the field parser, on the line's own cleaned value and the next line, if
    any: the own value when non-empty; otherwise the next line stripped and cleaned, unless
    there is no next line or it is blank or a bullet, which leave the value empty.
  */
  function ContinuedValue(own: string, next: Option<string>): string {
    if own != "" then own
    else match next
      case None => ""
      case Some(t) => if Strip(t) == "" || IsBullet(Strip(t)) then "" else CleanValue(Strip(t))
  }

  /** The line after `idx`, if there is one. */
  function NextLine(lines: seq<string>, idx: nat): (n: Option<string>)
    requires idx < |lines|
    ensures n.Some? <==> idx + 1 < |lines|
    ensures n.Some? ==> n.value == lines[idx + 1]
  {
    if idx + 1 < |lines| then Some(lines[idx + 1]) else None
  }

  /** The window computation of a value follows the value rule, for any line of any document. */
  lemma ValueOfRule(lines: seq<string>, idx: nat, v: nat, hi: nat)
    requires idx < |lines| && v <= hi <= |lines[idx]|
    ensures ValueOf(lines, idx, v, hi) == ContinuedValue(CleanValue(lines[idx][v..hi]), NextLine(lines, idx))
  {
    hide CleanValue, Strip, IsBullet, CleanWindow, StripWindow, BulletAt;
    var raw := lines[idx];
    var w := CleanWindow(raw, v, hi);
    CleanWindowSlice(raw, v, hi);
    assert |raw[w.0..w.1]| == w.1 - w.0;
    if w.0 < w.1 {
      assert ValueOf(lines, idx, v, hi) == raw[w.0..w.1];
    } else if idx + 1 < |lines| {
      var next := lines[idx + 1];
      var n := StripWindow(next, 0, |next|, Whitespace);
      ContinuationValue(next);
      if n.0 < n.1 && !BulletAt(next, n.0, n.1) {
        var c := CleanWindow(next, n.0, n.1);
        assert ValueOf(lines, idx, v, hi) == next[c.0..c.1];
      } else {
        assert ValueOf(lines, idx, v, hi) == "";
      }
    } else {
      assert ValueOf(lines, idx, v, hi) == "";
    }
  }

  /**
    A line whose stripped form matches contributes its trimmed, lower-cased key and the value
    the value rule gives for its cleaned group 2 and the next line, for any line of any document.
  */
  lemma MatchedLineEntry(lines: seq<string>, idx: nat, b: nat, p: nat, v: nat)
    requires idx < |lines|
    requires var raw := lines[idx]; var w := StripWindow(raw, 0, |raw|, Whitespace);
      FieldMatch(raw, w.0, w.1) == Some((b, p, v))
    ensures var raw := lines[idx]; var w := StripWindow(raw, 0, |raw|, Whitespace);
      LineEntry(lines, idx) == Some((KeyOf(raw, b, p), ContinuedValue(CleanValue(raw[v..w.1]), NextLine(lines, idx))))
  {
    var raw := lines[idx];
    var w := StripWindow(raw, 0, |raw|, Whitespace);
    ValueOfRule(lines, idx, v, w.1);
    hide ValueOf, ContinuedValue, NextLine, KeyOf, CleanValue;
  }

  /** The line `- **Key:**` yields the key and, its own value being empty, the next line's cleaned value. */
  lemma BoldKeyEntry(k: string, lines: seq<string>)
    requires KeyShaped(k) && |lines| >= 2 && lines[0] == "- **" + k + ":**"
    requires Strip(lines[1]) != "" && !IsBullet(Strip(lines[1]))
    ensures LineEntry(lines, 0) == Some((Lower(k), CleanValue(Strip(lines[1]))))
  {
    var e := 4 + |k|;
    BoldKeyLine(k);
    BoldOwnValueEmpty(k);
    hide KeyOf, FieldMatch, StripWindow, CleanValue, Strip, IsBullet, LineEntry;
    MatchedLineEntry(lines, 0, 4, e, e + 1);
  }

  /** `- **Key:**` as the last line, or before a blank line or a bullet, keeps an empty value. */
  lemma BoldKeyWithoutContinuation(k: string, lines: seq<string>)
    requires KeyShaped(k) && |lines| >= 1 && lines[0] == "- **" + k + ":**"
    requires |lines| == 1 || Strip(lines[1]) == "" || IsBullet(Strip(lines[1]))
    ensures LineEntry(lines, 0) == Some((Lower(k), ""))
  {
    var e := 4 + |k|;
    BoldKeyLine(k);
    BoldOwnValueEmpty(k);
    hide KeyOf, FieldMatch, StripWindow, CleanValue, Strip, IsBullet, LineEntry;
    MatchedLineEntry(lines, 0, 4, e, e + 1);
  }

  /** The cleaned group 2 of `- **Key:**` is empty. */
  lemma BoldOwnValueEmpty(k: string)
    ensures var first := "- **" + k + ":**"; CleanValue(first[4 + |k| + 1..|first|]) == ""
  {
    var first := "- **" + k + ":**";
    var e := 4 + |k|;
    BoldValueEmpty(k);
    CleanWindowSlice(first, e + 1, |first|);
    var w := CleanWindow(first, e + 1, |first|);
    assert |first[w.0..w.1]| == 0;
  }

  /** A stripped line starting with neither `-` nor `*` contributes no entry. */
  lemma PlainLineEntry(lines: seq<string>, idx: nat)
    requires idx < |lines|
    requires var t := Strip(lines[idx]); t == "" || (t[0] != '-' && t[0] != '*')
    ensures LineEntry(lines, idx) == None
  {
    var raw := lines[idx];
    var w := StripWindow(raw, 0, |raw|, Whitespace);
    StripWindowSlice(raw, 0, |raw|, Whitespace);
    assert raw[0..|raw|] == raw;
    var t := Strip(raw);
    assert t == raw[w.0..w.1];
    hide Strip, StripBy, StripWindow, KeyOf, ValueOf;
    assert w.0 < w.1 ==> raw[w.0] == t[0];
    assert FieldMatch(raw, w.0, w.1) == None;
  }

  /**
    The continuation rule: `- **Key:**` with nothing after it takes its value from the
    following line, cleaned the same way, when that line is non-empty and not a bullet.
  */
  lemma ContinuationLine(k: string, next: string)
    requires KeyShaped(k) && NoLineBreak(k) && NoLineBreak(next)
    requires Strip(next) != "" && Strip(next)[0] != '-' && Strip(next)[0] != '*'
    ensures MdFields("- **" + k + ":**\n" + next) == map[Lower(k) := CleanValue(Strip(next))]
  {
    hide LineEntry, CleanValue, Lower;
    var first := "- **" + k + ":**";
    var content := "- **" + k + ":**\n" + next;
    assert content == first + "\n" + next;
    assert forall i :: 4 <= i < 4 + |k| ==> first[i] == k[i - 4];
    assert NoLineBreak(first);
    SplitLinesCons(first, next);
    SplitLinesSingle(next);
    var lines := [first, next];
    assert SplitLines(content) == lines;
    assert lines[0] == first && lines[1] == next;
    hide Strip;
    BoldKeyEntry(k, lines);
    PlainLineEntry(lines, 1);
    var entries := Entries(lines);
    assert entries[0] == LineEntry(lines, 0);
    assert entries[1] == LineEntry(lines, 1);
    assert FieldsUpTo(entries, 1) == map[Lower(k) := CleanValue(Strip(next))];
    assert FieldsUpTo(entries, 2) == FieldsUpTo(entries, 1);
    assert MdFields(content) == FieldsUpTo(entries, 2);
  }

  // ---------------------------------------------------------------------------------------
  // Placeholders

  /** The comparison form of a value: markers stripped, lower-cased, trimmed. */
  function Normalised(v: string): string {
    Strip(Lower(StripMdMarkers(v)))
  }

  /** `_is_placeholder`. */
  predicate IsPlaceholder(v: string) {
    var n := Normalised(v);
    n == "" || n in (set p | p in IdentityPlaceholders :: Lower(p)) || n in UserPlaceholders
  }

  /** Markdown markers around a value never change whether it is a placeholder. */
  lemma PlaceholderIgnoresMarkers(v: string)
    ensures IsPlaceholder(StripMdMarkers(v)) == IsPlaceholder(v)
  {
    StripMdMarkersNormalises(v);
  }

  /** A value made only of markers and whitespace is a placeholder. */
  lemma MarkersOnlyIsPlaceholder(v: string)
    requires forall i :: 0 <= i < |v| ==> InClass(v[i], Markdown)
    ensures IsPlaceholder(v)
  {
    StripByAll(v, Markdown);
  }

  // ---------------------------------------------------------------------------------------
  // The four checks

  /** `check_bootstrap_deleted`: passes iff BOOTSTRAP.md is gone. */
  function BootstrapDeletedCheck(bootstrap: Option<string>): (c: FileCheck)
    ensures c.filename == "BOOTSTRAP.md"
    ensures c.passed <==> bootstrap.None?
    ensures c.present <==> bootstrap.Some?
    ensures c.details == if bootstrap.None? then "Deleted \U{2713}"
      else "Still exists \U{2014} bootstrap did not complete"
    ensures c.content == bootstrap.GetOr("")
  {
    match bootstrap
    case None => FileCheck("BOOTSTRAP.md", false, true, "Deleted \U{2713}", "")
    case Some(text) =>
      FileCheck("BOOTSTRAP.md", true, false, "Still exists \U{2014} bootstrap did not complete", text)
  }

  /**
    The value read for a required key: `fields.get(req, "")`, and for USER.md's `name`
    (when `useAlias`) the "what to call them" value if `name` is absent or empty.
  */
  function RequiredValue(fields: map<string, string>, req: string, useAlias: bool): string {
    var v := Get(fields, req, "");
    if useAlias && req == "name" && v == "" then Get(fields, NameAlias, "") else v
  }

  /** The required keys, in iteration order, whose value is empty. */
  function Missing(fields: map<string, string>, order: seq<string>, useAlias: bool): seq<string>
    decreases |order|
  {
    if order == [] then []
    else
      var req := order[|order| - 1];
      Missing(fields, order[..|order| - 1], useAlias)
        + (if RequiredValue(fields, req, useAlias) == "" then [req] else [])
  }

  /** The required keys, in iteration order, whose value is set but a placeholder. */
  function Placeholders(fields: map<string, string>, order: seq<string>, useAlias: bool): seq<string>
    decreases |order|
  {
    if order == [] then []
    else
      var req := order[|order| - 1];
      var v := RequiredValue(fields, req, useAlias);
      Placeholders(fields, order[..|order| - 1], useAlias)
        + (if v != "" && IsPlaceholder(v) then [req] else [])
  }

  lemma {:induction false} MissingMembers(fields: map<string, string>, order: seq<string>, useAlias: bool, k: string)
    ensures k in Missing(fields, order, useAlias) <==> k in order && RequiredValue(fields, k, useAlias) == ""
    decreases |order|
  {
    if order != [] {
      var init := order[..|order| - 1];
      MissingMembers(fields, init, useAlias, k);
      assert order == init + [order[|order| - 1]];
    }
  }

  lemma {:induction false} PlaceholdersMembers(fields: map<string, string>, order: seq<string>, useAlias: bool, k: string)
    ensures k in Placeholders(fields, order, useAlias) <==>
      k in order && RequiredValue(fields, k, useAlias) != "" && IsPlaceholder(RequiredValue(fields, k, useAlias))
    decreases |order|
  {
    if order != [] {
      var init := order[..|order| - 1];
      PlaceholdersMembers(fields, init, useAlias, k);
      assert order == init + [order[|order| - 1]];
    }
  }

  /** `k=v` for each key, with the value the details line shows. */
  function Assignments(fields: map<string, string>, order: seq<string>, useAlias: bool): seq<string>
    decreases |order|
  {
    if order == [] then []
    else
      var k := order[0];
      var v := if useAlias && Get(fields, k, "") == "" then Get(fields, NameAlias, "") else Get(fields, k, "");
      [k + "=" + v] + Assignments(fields, order[1..], useAlias)
  }

  /**
    The verdict on an existing file whose parsed fields are `fields`: missing keys are
    reported first, then placeholder keys, and otherwise the assignments after `okPrefix`.
  */
  function FieldsVerdict(filename: string, text: string, fields: map<string, string>,
                         order: seq<string>, useAlias: bool, okPrefix: string): FileCheck
  {
    var missing := Missing(fields, order, useAlias);
    var placeholder := Placeholders(fields, order, useAlias);
    if missing != [] then
      FileCheck(filename, true, false, "Missing fields: " + Join(missing, ", "), text)
    else if placeholder != [] then
      FileCheck(filename, true, false, "Placeholder values: " + Join(placeholder, ", "), text)
    else
      FileCheck(filename, true, true, okPrefix + Join(Assignments(fields, order, useAlias), ", "), text)
  }

  /** The check shared by IDENTITY.md and USER.md, parameterised by the success wording. */
  function FieldsCheck(filename: string, file: Option<string>, order: seq<string>,
                       useAlias: bool, okPrefix: string): (c: FileCheck)
    ensures c.filename == filename && (c.present <==> file.Some?)
    ensures file.None? ==> !c.passed && c.details == "File missing" && c.content == ""
    ensures file.Some? ==> c.content == file.value
  {
    match file
    case None => FileCheck(filename, false, false, "File missing", "")
    case Some(text) => FieldsVerdict(filename, text, MdFields(text), order, useAlias, okPrefix)
  }

  function IdentityCheck(identity: Option<string>, order: seq<string>): FileCheck {
    FieldsCheck("IDENTITY.md", identity, order, false, "All fields set: ")
  }

  function UserCheck(user: Option<string>, order: seq<string>): FileCheck {
    FieldsCheck("USER.md", user, order, true, "Key fields populated: ")
  }

  /** A value that counts as filled in: non-empty and not a placeholder. */
  predicate Filled(v: string) {
    v != "" && !IsPlaceholder(v)
  }

  /** The verdict passes iff every required key is filled in. */
  lemma VerdictPasses(filename: string, text: string, fields: map<string, string>,
                      order: seq<string>, useAlias: bool, okPrefix: string)
    ensures FieldsVerdict(filename, text, fields, order, useAlias, okPrefix).passed <==>
      forall k :: k in order ==> Filled(RequiredValue(fields, k, useAlias))
  {
    forall k
      ensures k in Missing(fields, order, useAlias) <==> k in order && RequiredValue(fields, k, useAlias) == ""
      ensures k in Placeholders(fields, order, useAlias) <==>
        k in order && RequiredValue(fields, k, useAlias) != "" && IsPlaceholder(RequiredValue(fields, k, useAlias))
    {
      MissingMembers(fields, order, useAlias, k);
      PlaceholdersMembers(fields, order, useAlias, k);
    }
    if !FieldsVerdict(filename, text, fields, order, useAlias, okPrefix).passed {
      if Missing(fields, order, useAlias) != [] {
        var k := Missing(fields, order, useAlias)[0];
        assert k in Missing(fields, order, useAlias);
      } else {
        var k := Placeholders(fields, order, useAlias)[0];
        assert k in Placeholders(fields, order, useAlias);
      }
    }
  }

  /**
    The details of the verdict: missing keys are reported before placeholder keys, and a
    passing verdict lists the assignments after `okPrefix`.
  */
  lemma VerdictDetails(filename: string, text: string, fields: map<string, string>,
                       order: seq<string>, useAlias: bool, okPrefix: string)
    ensures var c := FieldsVerdict(filename, text, fields, order, useAlias, okPrefix);
      c.filename == filename && c.present && c.content == text &&
      ((exists k :: k in order && RequiredValue(fields, k, useAlias) == "") ==>
        StartsWith(c.details, "Missing fields: ")) &&
      ((forall k :: k in order ==> RequiredValue(fields, k, useAlias) != "") &&
       (exists k :: k in order && IsPlaceholder(RequiredValue(fields, k, useAlias))) ==>
        StartsWith(c.details, "Placeholder values: ")) &&
      (c.passed ==> StartsWith(c.details, okPrefix))
  {
    hide Normalised;
    var c := FieldsVerdict(filename, text, fields, order, useAlias, okPrefix);
    forall k
      ensures k in Missing(fields, order, useAlias) <==> k in order && RequiredValue(fields, k, useAlias) == ""
      ensures k in Placeholders(fields, order, useAlias) <==>
        k in order && RequiredValue(fields, k, useAlias) != "" && IsPlaceholder(RequiredValue(fields, k, useAlias))
    {
      MissingMembers(fields, order, useAlias, k);
      PlaceholdersMembers(fields, order, useAlias, k);
    }
    var m := "Missing fields: ";
    var p := "Placeholder values: ";
    if Missing(fields, order, useAlias) != [] {
      assert c.details == m + Join(Missing(fields, order, useAlias), ", ");
      assert c.details[..|m|] == m;
      assert Missing(fields, order, useAlias)[0] in Missing(fields, order, useAlias);
    } else if Placeholders(fields, order, useAlias) != [] {
      assert c.details == p + Join(Placeholders(fields, order, useAlias), ", ");
      assert c.details[..|p|] == p;
    } else {
      assert forall k :: k in order ==> !IsPlaceholder(RequiredValue(fields, k, useAlias));
      var rest := Join(Assignments(fields, order, useAlias), ", ");
      assert c.details == okPrefix + rest;
      assert c.details[..|okPrefix|] == okPrefix;
    }
  }

  /** The shared check passes iff the file exists and every required key of its fields is filled in. */
  lemma FieldsCheckPasses(filename: string, file: Option<string>, order: seq<string>,
                          useAlias: bool, okPrefix: string)
    ensures FieldsCheck(filename, file, order, useAlias, okPrefix).passed <==>
      file.Some? && forall k :: k in order ==> Filled(RequiredValue(MdFields(file.value), k, useAlias))
  {
    if file.Some? {
      VerdictPasses(filename, file.value, MdFields(file.value), order, useAlias, okPrefix);
    }
  }

  /** IDENTITY.md passes iff it exists and name, creature, vibe and emoji are all filled in. */
  lemma IdentityPasses(identity: Option<string>, order: seq<string>)
    requires Enumerates(order, IdentityRequired)
    ensures IdentityCheck(identity, order).passed <==>
      identity.Some? && forall k :: k in IdentityRequired ==> Filled(Get(MdFields(identity.value), k, ""))
  {
    FieldsCheckPasses("IDENTITY.md", identity, order, false, "All fields set: ");
  }

  /**
    USER.md passes iff it exists, the name (or, when the name is absent or empty, the
    "what to call them" value) is filled in, and the timezone is filled in.
  */
  lemma UserPasses(user: Option<string>, order: seq<string>)
    requires Enumerates(order, UserRequired)
    ensures UserCheck(user, order).passed <==>
      user.Some? &&
      (var fields := MdFields(user.value);
       var name := Get(fields, "name", "");
       Filled(if name == "" then Get(fields, NameAlias, "") else name) &&
       Filled(Get(fields, "timezone", "")))
  {
    hide MdFields, FieldsCheck, Filled;
    FieldsCheckPasses("USER.md", user, order, true, "Key fields populated: ");
    if user.Some? {
      UserKeysFilled(MdFields(user.value), order);
    }
  }

  /** With the alias, the two USER.md keys are filled in iff name-or-alias and timezone are. */
  lemma UserKeysFilled(fields: map<string, string>, order: seq<string>)
    requires Enumerates(order, UserRequired)
    ensures (forall k :: k in order ==> Filled(RequiredValue(fields, k, true))) <==>
      (var name := Get(fields, "name", "");
       Filled(if name == "" then Get(fields, NameAlias, "") else name) &&
       Filled(Get(fields, "timezone", "")))
  {
    hide Filled, Get;
    assert "name" in order && "timezone" in order;
    forall k | k in order ensures k == "name" || k == "timezone" {
      var i :| 0 <= i < |order| && order[i] == k;
    }
    assert RequiredValue(fields, "timezone", true) == Get(fields, "timezone", "");
  }

  /** `check_soul`: fails iff both template phrases are present and the trimmed text is at most 200 characters. */
  function SoulCheck(soul: Option<string>): (c: FileCheck)
    ensures c.filename == "SOUL.md" && (c.present <==> soul.Some?)
    ensures soul.None? ==> !c.passed && c.details == "File missing"
    ensures soul.Some? ==> (c.passed <==>
      !(Contains(soul.value, SoulMarkers[0]) && Contains(soul.value, SoulMarkers[1])
        && |Strip(soul.value)| <= 200))
    ensures soul.Some? && !c.passed ==> c.details == "Still contains only template text"
    ensures soul.Some? && c.passed ==> c.details == "Modified (" + NatToString(|soul.value|) + " chars)"
  {
    match soul
    case None => FileCheck("SOUL.md", false, false, "File missing", "")
    case Some(text) =>
      var templateOnly := forall i :: 0 <= i < |SoulMarkers| ==> Contains(text, SoulMarkers[i]);
      var longEnough := |Strip(text)| > 200;
      if templateOnly && !longEnough then
        FileCheck("SOUL.md", true, false, "Still contains only template text", text)
      else
        FileCheck("SOUL.md", true, true, "Modified (" + NatToString(|text|) + " chars)", text)
  }

  // ---------------------------------------------------------------------------------------
  // The imperative checks

  /** `check_identity`: collects missing and placeholder keys in one pass. */
  method CheckIdentity(identity: Option<string>, order: seq<string>) returns (check: FileCheck)
    requires Enumerates(order, IdentityRequired)
    ensures check == IdentityCheck(identity, order)
  {
    check := CheckFields("IDENTITY.md", identity, order, false, "All fields set: ");
  }

  /** `check_user`: as `CheckIdentity`, with the "what to call them" alias for `name`. */
  method CheckUser(user: Option<string>, order: seq<string>) returns (check: FileCheck)
    requires Enumerates(order, UserRequired)
    ensures check == UserCheck(user, order)
  {
    check := CheckFields("USER.md", user, order, true, "Key fields populated: ");
  }

  method CheckFields(filename: string, file: Option<string>, order: seq<string>,
                     useAlias: bool, okPrefix: string) returns (check: FileCheck)
    ensures check == FieldsCheck(filename, file, order, useAlias, okPrefix)
  {
    if file.None? {
      return FileCheck(filename, false, false, "File missing", "");
    }
    var fields := ParseMdFields(file.value);
    check := JudgeFields(filename, file.value, fields, order, useAlias, okPrefix);
  }

  /** One pass over the required keys, collecting the missing and the placeholder ones. */
  method JudgeFields(filename: string, text: string, fields: map<string, string>,
                     order: seq<string>, useAlias: bool, okPrefix: string) returns (check: FileCheck)
    ensures check == FieldsVerdict(filename, text, fields, order, useAlias, okPrefix)
  {
    var missing: seq<string> := [];
    var placeholder: seq<string> := [];
    var i := 0;
    while i < |order|
      invariant 0 <= i <= |order|
      invariant missing == Missing(fields, order[..i], useAlias)
      invariant placeholder == Placeholders(fields, order[..i], useAlias)
    {
      var req := order[i];
      var v := RequiredValue(fields, req, useAlias);
      if v == "" {
        missing := missing + [req];
      } else if IsPlaceholder(v) {
        placeholder := placeholder + [req];
      }
      assert order[..i + 1][..i] == order[..i];
      i := i + 1;
    }
    assert order[..|order|] == order;
    check := FileCheck(filename, true, false, "", text);
    if missing != [] {
      check := check.(details := "Missing fields: " + Join(missing, ", "));
    } else if placeholder != [] {
      check := check.(details := "Placeholder values: " + Join(placeholder, ", "));
    } else {
      check := check.(passed := true, details := okPrefix + Join(Assignments(fields, order, useAlias), ", "));
    }
  }

  // ---------------------------------------------------------------------------------------
  // Aggregate verification

  /** The number of passed checks. */
  function PassedCount(checks: seq<FileCheck>): (n: nat)
    ensures n <= |checks|
    ensures n == |checks| <==> forall i :: 0 <= i < |checks| ==> checks[i].passed
    decreases |checks|
  {
    if checks == [] then 0
    else PassedCount(checks[..|checks| - 1]) + (if checks[|checks| - 1].passed then 1 else 0)
  }

  /** A fraction of passed over total items lies in [0,1], is 1 exactly when all passed and 0 when none did. */
  lemma FractionOne(k: nat, n: nat)
    requires 0 < n && k <= n
    ensures 0.0 <= k as real / n as real <= 1.0
    ensures k as real / n as real == 1.0 <==> k == n
    ensures k as real / n as real == 0.0 <==> k == 0
  {
    var f := k as real / n as real;
    assert f * n as real == k as real;
  }

  /**
    The aggregate over a list of checks: all passed iff every check passed, and the score is
    the passed fraction, 0 for an empty list.
  */
  function Summarise(modelName: string, checks: seq<FileCheck>): (r: VerificationResult)
    ensures r.modelName == modelName && r.checks == checks
    ensures r.allPassed <==> forall i :: 0 <= i < |checks| ==> checks[i].passed
    ensures checks == [] ==> r.score == 0.0
    ensures checks != [] ==> r.score == PassedCount(checks) as real / |checks| as real
    ensures 0.0 <= r.score <= 1.0
    ensures checks != [] ==> (r.score == 1.0 <==> r.allPassed)
  {
    var passed := PassedCount(checks);
    var total := |checks|;
    if total > 0 then
      FractionOne(passed, total);
      VerificationResult(modelName, checks, passed == total, passed as real / total as real)
    else
      VerificationResult(modelName, checks, passed == total, 0.0)
  }

  /** `verify_bootstrap`: the four checks in fixed order, summarised. */
  method VerifyBootstrap(ws: Workspace, modelName: string, identityOrder: seq<string>, userOrder: seq<string>)
    returns (r: VerificationResult)
    requires Enumerates(identityOrder, IdentityRequired)
    requires Enumerates(userOrder, UserRequired)
    ensures r == Summarise(modelName, [BootstrapDeletedCheck(ws.bootstrap), IdentityCheck(ws.identity, identityOrder),
                                       UserCheck(ws.user, userOrder), SoulCheck(ws.soul)])
  {
    var identity := CheckIdentity(ws.identity, identityOrder);
    var user := CheckUser(ws.user, userOrder);
    r := Summarise(modelName, [BootstrapDeletedCheck(ws.bootstrap), identity, user, SoulCheck(ws.soul)]);
  }

  /** A template phrase with no marker or whitespace at its ends counts as a placeholder as it stands. */
  lemma IdentityPhraseIsPlaceholder(p: string)
    requires p in IdentityPlaceholders
    requires p != [] && !InClass(p[0], Markdown) && !InClass(p[|p| - 1], Markdown)
    ensures IsPlaceholder(p)
  {
    StripByNoop(p, Markdown);
    var l := Lower(p);
    assert l[0] == LowerChar(p[0]) && l[|l| - 1] == LowerChar(p[|p| - 1]);
    StripByNoop(l, Whitespace);
    assert Normalised(p) == l;
  }

  /** The template's continuation line `  _(phrase)_` has no line break and strips to `_(phrase)_`. */
  lemma TemplateValueStrips(phrase: string)
    requires NoLineBreak(phrase)
    requires phrase != [] && IsWord(phrase[0]) && IsWord(phrase[|phrase| - 1])
    ensures var next := "  _(" + phrase + ")_"; NoLineBreak(next) && Strip(next) == "_(" + phrase + ")_"
  {
    var t := "_(" + phrase + ")_";
    var next := "  _(" + phrase + ")_";
    forall i | 0 <= i < |next| ensures !IsLineBreak(next[i]) {
      if 4 <= i < 4 + |phrase| {
        assert next[i] == phrase[i - 4];
      }
    }
    StripByWrapped("  ", t, "", Whitespace);
    assert "  " + t + "" == next;
  }

  /** `_(phrase)_` cleans to the phrase: markers, then parentheses, then whitespace are stripped. */
  lemma TemplateValueCleans(phrase: string)
    requires phrase != [] && IsWord(phrase[0]) && IsWord(phrase[|phrase| - 1])
    ensures CleanValue("_(" + phrase + ")_") == phrase
  {
    hide LStrip, RStrip;
    var t := "_(" + phrase + ")_";
    StripByWrapped("_", "(" + phrase + ")", "_", Markdown);
    assert "_" + ("(" + phrase + ")") + "_" == t;
    StripByWrapped("(", phrase + ")", "", Only('('));
    assert "(" + (phrase + ")") + "" == "(" + phrase + ")";
    StripByWrapped("", phrase, ")", Only(')'));
    assert "" + phrase + ")" == phrase + ")";
    StripByNoop(phrase, Whitespace);
  }

  /** A template line `- **Key:**` followed by `  _(phrase)_` on the next line yields the phrase. */
  lemma TemplateField(k: string, phrase: string)
    requires KeyShaped(k) && NoLineBreak(k) && NoLineBreak(phrase)
    requires phrase != [] && IsWord(phrase[0]) && IsWord(phrase[|phrase| - 1])
    ensures MdFields("- **" + k + ":**\n" + ("  _(" + phrase + ")_")) == map[Lower(k) := phrase]
  {
    hide Strip, StripBy, CleanValue, Lower, MdFields;
    TemplateValueStrips(phrase);
    TemplateValueCleans(phrase);
    var next := "  _(" + phrase + ")_";
    assert Strip(next)[0] == '_';
    ContinuationLine(k, next);
  }

  /** The name line of the IDENTITY.md template yields a placeholder, so an untouched template fails. */
  lemma TemplateNameIsPlaceholder()
    ensures var content := "- **" + "Name" + ":**\n" + ("  _(" + "pick something you like" + ")_");
      MdFields(content) == map["name" := "pick something you like"] &&
      IsPlaceholder(MdFields(content)["name"])
  {
    hide MdFields, IsPlaceholder, Normalised, StripBy;
    var phrase := "pick something you like";
    var k := "Name";
    assert KeyShaped(k);
    assert NoLineBreak(phrase);
    assert Lower(k) == "name";
    TemplateField(k, phrase);
    IdentityPhraseIsPlaceholder(phrase);
  }
}

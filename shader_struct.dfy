/**
 * The GLSL struct generator of a light: a uniform descriptor such as
 * "float enabled float3 world_position" is scanned with the pattern
 *
 *     [ ]*([fFiI][loatn]+)([0-9]*)[ ]+([A-Za-z0-9_]+)[,;:]*
 *
 * the way java.util.regex.Matcher.find() scans it (leftmost match first,
 * the next search resuming where the previous match ended), and every match
 * becomes one field line of "struct Struct<ClassName> { ... };".
 */
module ShaderStruct {

  import opened Wrappers

  /** One descriptor entry: the pattern's three groups (type, size, name). */
  datatype Field = Field(typ: string, size: string, name: string)

  /**
   * One match of the pattern, by the positions where its pieces begin:
   * leading spaces at start, type group at typeAt, size group at sizeAt,
   * the gap at gapAt, the name group at nameAt, the trailer at trailerAt;
   * the match ends at end.
   */
  datatype Match = Match(start: nat, typeAt: nat, sizeAt: nat, gapAt: nat, nameAt: nat, trailerAt: nat, end: nat)

  /** The character classes of the pattern. */
  datatype CharClass = Space | TypeHead | TypeTail | Digit | NameChar | Trailer

  predicate In(c: char, k: CharClass)
  {
    match k
    case Space => c == ' '
    case TypeHead => c == 'f' || c == 'F' || c == 'i' || c == 'I'
    case TypeTail => c == 'l' || c == 'o' || c == 'a' || c == 't' || c == 'n'
    case Digit => '0' <= c <= '9'
    case NameChar => 'A' <= c <= 'Z' || 'a' <= c <= 'z' || '0' <= c <= '9' || c == '_'
    case Trailer => c == ',' || c == ';' || c == ':'
  }

  /** Every character of s[i..j] is in class k. */
  predicate AllIn(s: string, i: nat, j: nat, k: CharClass)
    requires i <= j <= |s|
  {
    forall m :: i <= m < j ==> In(s[m], k)
  }

  /** The end of the longest run of class-k characters that starts at i (a greedy `[k]*`). */
  function Span(s: string, i: nat, k: CharClass): (j: nat)
    requires i <= |s|
    ensures i <= j <= |s|
    decreases |s| - i
  {
    if i < |s| && In(s[i], k) then Span(s, i + 1, k) else i
  }

  /** Span's run is all of class k and cannot be extended. */
  lemma {:induction false} SpanMaximal(s: string, i: nat, k: CharClass)
    requires i <= |s|
    ensures AllIn(s, i, Span(s, i, k), k)
    ensures Span(s, i, k) == |s| || !In(s[Span(s, i, k)], k)
    decreases |s| - i
  {
    if i < |s| && In(s[i], k) {
      SpanMaximal(s, i + 1, k);
    }
  }

  /** The positions of m are in order and inside s. */
  predicate Ordered(s: string, m: Match)
  {
    m.start <= m.typeAt <= m.sizeAt <= m.gapAt <= m.nameAt <= m.trailerAt <= m.end <= |s|
  }

  /** m splits s[m.start..m.end] into pieces that the pattern accepts. */
  predicate IsMatch(s: string, m: Match)
  {
    && Ordered(s, m)
    && m.typeAt + 1 < m.sizeAt && m.gapAt < m.nameAt && m.nameAt < m.trailerAt
    && AllIn(s, m.start, m.typeAt, Space)
    && In(s[m.typeAt], TypeHead) && AllIn(s, m.typeAt + 1, m.sizeAt, TypeTail)
    && AllIn(s, m.sizeAt, m.gapAt, Digit)
    && AllIn(s, m.gapAt, m.nameAt, Space)
    && AllIn(s, m.nameAt, m.trailerAt, NameChar)
    && AllIn(s, m.trailerAt, m.end, Trailer)
  }

  /** The name group and the trailer of m cannot be extended (greedy quantifiers). */
  predicate Greedy(s: string, m: Match)
    requires Ordered(s, m)
  {
    && (m.trailerAt == |s| || !In(s[m.trailerAt], NameChar))
    && (m.end == |s| || !In(s[m.end], Trailer))
  }

  /** The entry of a match: the pattern's groups 1 (type), 2 (size) and 3 (name). */
  function FieldOf(s: string, m: Match): Field
    requires Ordered(s, m)
  {
    Field(s[m.typeAt..m.sizeAt], s[m.sizeAt..m.gapAt], s[m.nameAt..m.trailerAt])
  }

  /**
   * The rest of the pattern after its leading `[ ]*`, tried at q for a match
   * that starts at p. Every piece is taken greedily, which loses nothing
   * because neighbouring pieces have disjoint character classes.
   */
  function MatchRest(s: string, p: nat, q: nat): Option<Match>
    requires p <= q <= |s|
  {
    if q == |s| || !In(s[q], TypeHead) then None
    else MatchType(s, p, q, Span(s, q + 1, TypeTail))
  }

  /** `[fFiI][loatn]+` occupies q..r: it needs at least one letter after the first. */
  function MatchType(s: string, p: nat, q: nat, r: nat): Option<Match>
    requires p <= q < r <= |s|
  {
    if r == q + 1 then None
    else MatchGap(s, p, q, r, Span(s, r, Digit))
  }

  /** `([0-9]*)` occupies r..t; `[ ]+` must follow. */
  function MatchGap(s: string, p: nat, q: nat, r: nat, t: nat): Option<Match>
    requires p <= q < r <= t <= |s|
  {
    var u := Span(s, t, Space);
    if u == t then None
    else MatchName(s, p, q, r, t, u)
  }

  /** The gap occupies t..u; `([A-Za-z0-9_]+)` and then `[,;:]*` must follow. */
  function MatchName(s: string, p: nat, q: nat, r: nat, t: nat, u: nat): Option<Match>
    requires p <= q < r <= t < u <= |s|
  {
    var v := Span(s, u, NameChar);
    if v == u then None
    else Some(Match(p, q, r, t, u, v, Span(s, v, Trailer)))
  }

  /** The match of the pattern that starts exactly at p, if any. */
  function MatchAt(s: string, p: nat): (m: Option<Match>)
    requires p <= |s|
    ensures m.Some? ==> m.value.start == p < m.value.end && Ordered(s, m.value)
  {
    MatchRest(s, p, Span(s, p, Space))
  }

  /** A maximal run is unique: a run of class k from i that stops at j is Span's run. */
  lemma SpanIs(s: string, i: nat, j: nat, k: CharClass)
    requires i <= j <= |s| && AllIn(s, i, j, k)
    requires j == |s| || !In(s[j], k)
    ensures Span(s, i, k) == j
    decreases |s| - i
  {
    if i < j {
      SpanIs(s, i + 1, j, k);
    }
  }

  /** Whatever MatchAt returns is a match of the pattern at p, with greedy name and trailer. */
  lemma MatchAtSound(s: string, p: nat)
    requires p <= |s| && MatchAt(s, p).Some?
    ensures var m := MatchAt(s, p).value;
            m.start == p && IsMatch(s, m) && Greedy(s, m)
  {
    var m := MatchAt(s, p).value;
    SpanMaximal(s, p, Space);
    SpanMaximal(s, m.typeAt + 1, TypeTail);
    SpanMaximal(s, m.sizeAt, Digit);
    SpanMaximal(s, m.gapAt, Space);
    SpanMaximal(s, m.nameAt, NameChar);
    SpanMaximal(s, m.trailerAt, Trailer);
  }

  /**
   * Whenever the pattern can match at a position, MatchAt finds a match there:
   * its type group, size group and gap are the only possible ones, and its name
   * is at least as long as any other.
   */
  lemma MatchAtComplete(s: string, m: Match)
    requires IsMatch(s, m)
    ensures MatchAt(s, m.start).Some?
    ensures var g := MatchAt(s, m.start).value;
            && g.typeAt == m.typeAt && g.sizeAt == m.sizeAt && g.gapAt == m.gapAt
            && g.nameAt == m.nameAt && m.trailerAt <= g.trailerAt
  {
    SpanIs(s, m.start, m.typeAt, Space);
    SpanIs(s, m.typeAt + 1, m.sizeAt, TypeTail);
    SpanIs(s, m.sizeAt, m.gapAt, Digit);
    SpanIs(s, m.gapAt, m.nameAt, Space);
    SpanMaximal(s, m.nameAt, NameChar);
  }

  /**
   * Matcher.find() from position p: the match with the leftmost start at or
   * after p, or None when the pattern matches nowhere from p on.
   */
  function FindFrom(s: string, p: nat): (m: Option<Match>)
    requires p <= |s|
    ensures m.Some? ==> p <= m.value.start < m.value.end && Ordered(s, m.value)
    decreases |s| - p
  {
    match MatchAt(s, p)
    case Some(_) => MatchAt(s, p)
    case None => if p == |s| then None else FindFrom(s, p + 1)
  }

  /**
   * find() returns the leftmost match: None exactly when the pattern matches at
   * no position from p on, otherwise the match at the first position where it does.
   */
  lemma {:induction false} FindFromLeftmost(s: string, p: nat)
    requires p <= |s|
    ensures FindFrom(s, p).None? ==> forall i :: p <= i <= |s| ==> MatchAt(s, i).None?
    ensures FindFrom(s, p).Some? ==>
              var m := FindFrom(s, p).value;
              && MatchAt(s, m.start) == Some(m)
              && forall i :: p <= i < m.start ==> MatchAt(s, i).None?
    decreases |s| - p
  {
    if MatchAt(s, p).None? && p < |s| {
      FindFromLeftmost(s, p + 1);
    }
  }

  /**
   * The entries of all successive find() matches from p, in order. Every
   * match consumes at least one character, so there are at most as many
   * entries as characters left.
   */
  function Scan(s: string, p: nat): (r: seq<Field>)
    requires p <= |s|
    ensures |r| <= |s| - p
    decreases |s| - p
  {
    match FindFrom(s, p)
    case None => []
    case Some(m) => [FieldOf(s, m)] + Scan(s, m.end)
  }

  // ---------------------------------------------------------------------------
  // The serialiser

  function Header(className: string): string
  {
    "struct Struct" + className + " {\n"
  }

  const Footer: string := "};\n"

  /** The type is an integer type when its lower-cased text starts with 'i'. */
  predicate IsIntType(typ: string)
  {
    |typ| > 0 && (typ[0] == 'i' || typ[0] == 'I')
  }

  /**
   * The GLSL type written for an entry: an unsized entry keeps its own type
   * text; a sized one becomes a vector type that ends with the size and is an
   * integer vector ("   ivec") exactly when the entry's type is an integer type.
   */
  function GlslType(f: Field): (g: string)
    ensures |f.size| == 0 ==> g == f.typ
    ensures |f.size| > 0 ==> |g| > 3 + |f.size| && g[..3] == "   " && g[|g| - |f.size|..] == f.size
    ensures |f.size| > 0 ==> (g[3] == 'i' <==> IsIntType(f.typ))
    ensures |f.size| > 0 ==> g[..|g| - |f.size|] == (if IsIntType(f.typ) then "   ivec" else "   vec")
  {
    if |f.size| > 0 then
      var head := if IsIntType(f.typ) then "   ivec" else "   vec";
      assert (head + f.size)[..|head|] == head;
      head + f.size
    else f.typ
  }

  /**
   * A field line: the entry's GLSL type directly followed by a space, the
   * entry's name and ";\n", with nothing in between.
   */
  function FieldLine(f: Field): (line: string)
    ensures |line| == |GlslType(f)| + |f.name| + 3
    ensures GlslType(f) <= line
    ensures var tail := " " + f.name + ";\n";
            |tail| <= |line| && line[|line| - |tail|..] == tail
  {
    var head, tail := GlslType(f), " " + f.name + ";\n";
    assert head + " " + f.name + ";\n" == head + tail;
    assert (head + tail)[..|head|] == head;
    GlslType(f) + " " + f.name + ";\n"
  }

  function Body(fields: seq<Field>): string
  {
    if fields == [] then "" else FieldLine(fields[0]) + Body(fields[1..])
  }

  /** The struct text generated for a descriptor: one field line per find() match. */
  function StructText(className: string, descriptor: string): (text: string)
    ensures Header(className) <= text
    ensures |text| >= |Header(className)| + |Footer| && text[|text| - |Footer|..] == Footer
  {
    var body := Body(Scan(descriptor, 0));
    assert (Header(className) + body + Footer)[..|Header(className)|] == Header(className);
    Header(className) + body + Footer
  }

  /** Appending an entry's line to the accumulator consumes that entry from the rest. */
  lemma AppendLine(text: string, f: Field, line: string, rest: seq<Field>)
    requires line == FieldLine(f)
    ensures text + Body([f] + rest) == (text + line) + Body(rest)
  {
    var fields := [f] + rest;
    assert fields[0] == f && fields[1..] == rest;
    assert Body(fields) == line + Body(rest);
  }

  /**
   * getShaderStruct: runs find() until it fails, appending one field line per
   * match to the accumulator that starts as the struct header.
   */
  method GetShaderStruct(className: string, descriptor: string) returns (text: string)
    ensures text == StructText(className, descriptor)
  {
    text := Header(className);
    var pos := 0;
    var found := FindFrom(descriptor, pos);
    while found.Some?
      invariant pos <= |descriptor|
      invariant found == FindFrom(descriptor, pos)
      invariant Header(className) + Body(Scan(descriptor, 0)) == text + Body(Scan(descriptor, pos))
      decreases |descriptor| - pos
    {
      var m := found.value;
      var name := descriptor[m.nameAt..m.trailerAt];
      var size := descriptor[m.sizeAt..m.gapAt];
      var typ := descriptor[m.typeAt..m.sizeAt];
      var line: string;
      if |size| > 0 {
        if |typ| > 0 && (typ[0] == 'i' || typ[0] == 'I') {
          line := "   ivec" + size;
        } else {
          line := "   vec" + size;
        }
      } else {
        line := typ;
      }
      line := line + " " + name + ";\n";
      AppendLine(text, FieldOf(descriptor, m), line, Scan(descriptor, m.end));
      text := text + line;
      pos := m.end;
      found := FindFrom(descriptor, pos);
    }
    text := text + Footer;
  }

  // ---------------------------------------------------------------------------
  // Scanning is position-independent: text in front of a position is never looked at

  /** s ends with b, which starts at position d of s. */
  predicate Suffix(s: string, d: nat, b: string)
  {
    d + |b| == |s| && forall k :: 0 <= k < |b| ==> s[d + k] == b[k]
  }

  /** The groups of a match moved d characters to the right, the match now starting at start. */
  function Moved(m: Option<Match>, d: nat, start: nat): Option<Match>
  {
    match m
    case None => None
    case Some(x) =>
      Some(Match(start, x.typeAt + d, x.sizeAt + d, x.gapAt + d, x.nameAt + d, x.trailerAt + d, x.end + d))
  }

  /** A match moved d characters to the right, start included. */
  function Shifted(m: Option<Match>, d: nat): Option<Match>
  {
    match m
    case None => None
    case Some(x) => Moved(m, d, x.start + d)
  }

  /** Both searches fail, or both succeed with the same groups, m's positions d to the right of m'. */
  predicate SameEntry(m: Option<Match>, m': Option<Match>, d: nat)
  {
    match (m, m')
    case (None, None) => true
    case (Some(x), Some(y)) =>
      && x.typeAt == y.typeAt + d && x.sizeAt == y.sizeAt + d && x.gapAt == y.gapAt + d
      && x.nameAt == y.nameAt + d && x.trailerAt == y.trailerAt + d && x.end == y.end + d
    case _ => false
  }

  lemma {:induction false} SpanShift(s: string, d: nat, b: string, i: nat, k: CharClass)
    requires Suffix(s, d, b) && i <= |b|
    ensures Span(s, d + i, k) == d + Span(b, i, k)
    decreases |b| - i
  {
    if i < |b| {
      assert s[d + i] == b[i];
      SpanShift(s, d, b, i + 1, k);
    }
  }

  lemma MatchNameShift(s: string, d: nat, b: string, p': nat, p: nat, q: nat, r: nat, t: nat, u: nat)
    requires Suffix(s, d, b) && p <= q < r <= t < u <= |b| && p' <= d + q
    ensures MatchName(s, p', d + q, d + r, d + t, d + u) == Moved(MatchName(b, p, q, r, t, u), d, p')
  {
    SpanShift(s, d, b, u, NameChar);
    SpanShift(s, d, b, Span(b, u, NameChar), Trailer);
  }

  lemma MatchGapShift(s: string, d: nat, b: string, p': nat, p: nat, q: nat, r: nat, t: nat)
    requires Suffix(s, d, b) && p <= q < r <= t <= |b| && p' <= d + q
    ensures MatchGap(s, p', d + q, d + r, d + t) == Moved(MatchGap(b, p, q, r, t), d, p')
  {
    SpanShift(s, d, b, t, Space);
    var u := Span(b, t, Space);
    if u != t {
      MatchNameShift(s, d, b, p', p, q, r, t, u);
    }
  }

  lemma MatchTypeShift(s: string, d: nat, b: string, p': nat, p: nat, q: nat, r: nat)
    requires Suffix(s, d, b) && p <= q < r <= |b| && p' <= d + q
    ensures MatchType(s, p', d + q, d + r) == Moved(MatchType(b, p, q, r), d, p')
  {
    if r != q + 1 {
      SpanShift(s, d, b, r, Digit);
      MatchGapShift(s, d, b, p', p, q, r, Span(b, r, Digit));
    }
  }

  /** The pattern after its leading spaces sees only the text from q on. */
  lemma MatchRestShift(s: string, d: nat, b: string, p': nat, p: nat, q: nat)
    requires Suffix(s, d, b) && p <= q <= |b| && p' <= d + q
    ensures MatchRest(s, p', d + q) == Moved(MatchRest(b, p, q), d, p')
  {
    if q < |b| {
      assert s[d + q] == b[q];
      if In(b[q], TypeHead) {
        SpanShift(s, d, b, q + 1, TypeTail);
        MatchTypeShift(s, d, b, p', p, q, Span(b, q + 1, TypeTail));
      }
    }
  }

  lemma MatchAtShift(s: string, d: nat, b: string, i: nat)
    requires Suffix(s, d, b) && i <= |b|
    ensures MatchAt(s, d + i) == Shifted(MatchAt(b, i), d)
  {
    var q := Span(b, i, Space);
    SpanShift(s, d, b, i, Space);
    MatchRestShift(s, d, b, d + i, i, q);
    ShiftedFrom(MatchRest(b, i, q), d, i);
  }

  lemma ShiftedFrom(m: Option<Match>, d: nat, i: nat)
    requires m.Some? ==> m.value.start == i
    ensures Shifted(m, d) == Moved(m, d, d + i)
  {
  }

  lemma {:induction false} FindFromShift(s: string, d: nat, b: string, i: nat)
    requires Suffix(s, d, b) && i <= |b|
    ensures FindFrom(s, d + i) == Shifted(FindFrom(b, i), d)
    decreases |b| - i
  {
    MatchAtShift(s, d, b, i);
    if MatchAt(b, i).None? && i < |b| {
      FindFromShift(s, d, b, i + 1);
    }
  }

  /** Matches with the same groups, d characters apart, give the same entry. */
  lemma FieldOfShift(s: string, d: nat, b: string, x: Match, y: Match)
    requires Suffix(s, d, b) && Ordered(s, x) && Ordered(b, y)
    requires SameEntry(Some(x), Some(y), d)
    ensures FieldOf(s, x) == FieldOf(b, y)
  {
    SliceShift(s, d, b, y.typeAt, y.sizeAt);
    SliceShift(s, d, b, y.sizeAt, y.gapAt);
    SliceShift(s, d, b, y.nameAt, y.trailerAt);
  }

  lemma SliceShift(s: string, d: nat, b: string, i: nat, j: nat)
    requires Suffix(s, d, b) && i <= j <= |b|
    ensures s[d + i..d + j] == b[i..j]
  {
    var x, y := s[d + i..d + j], b[i..j];
    forall k | 0 <= k < |x|
      ensures x[k] == y[k]
    {
      assert x[k] == s[d + (i + k)];
    }
  }

  /** A successful find() contributes its entry, and scanning resumes at the end of the match. */
  lemma ScanStep(s: string, p: nat, m: Match)
    requires p <= |s| && FindFrom(s, p) == Some(m)
    ensures Scan(s, p) == [FieldOf(s, m)] + Scan(s, m.end)
  {
  }

  /** Two searches that both fail give two empty scans. */
  lemma NoneBoth(s: string, b: string, p: nat, i: nat)
    requires p <= |s| && i <= |b|
    requires FindFrom(s, p).None? && FindFrom(b, i).None?
    ensures Scan(s, p) == [] && Scan(b, i) == []
  {
  }

  /** Two searches that find the same entry, d characters apart, both resume scanning after it. */
  lemma FoundBoth(s: string, d: nat, b: string, p: nat, i: nat) returns (e: Field, n: nat)
    requires Suffix(s, d, b) && p <= |s| && i <= |b|
    requires FindFrom(b, i).Some? && SameEntry(FindFrom(s, p), FindFrom(b, i), d)
    ensures i < n <= |b|
    ensures Scan(b, i) == [e] + Scan(b, n)
    ensures Scan(s, p) == [e] + Scan(s, d + n)
  {
    var x, m := FindFrom(s, p).value, FindFrom(b, i).value;
    FieldOfShift(s, d, b, x, m);
    ScanStep(s, p, x);
    ScanStep(b, i, m);
    e, n := FieldOf(b, m), m.end;
  }

  lemma ShiftedIsSameEntry(m: Option<Match>, d: nat)
    ensures SameEntry(Shifted(m, d), m, d)
  {
  }

  /** What follows position d in s scans exactly as the suffix from d does. */
  lemma {:induction false} ScanShift(s: string, d: nat, b: string, i: nat)
    requires Suffix(s, d, b) && i <= |b|
    ensures Scan(s, d + i) == Scan(b, i)
    decreases |b| - i
  {
    FindFromShift(s, d, b, i);
    ShiftedIsSameEntry(FindFrom(b, i), d);
    if FindFrom(b, i).Some? {
      var e, n := FoundBoth(s, d, b, d + i, i);
      ScanShift(s, d, b, n);
    } else {
      NoneBoth(s, b, d + i, i);
    }
  }

  /** No type group can start in s before position d. */
  predicate NoTypeHeadBefore(s: string, d: nat)
  {
    forall m :: 0 <= m < d && m < |s| ==> !In(s[m], TypeHead)
  }

  /** Text without any of the letters f, F, i, I can never start a type group. */
  predicate NoTypeHead(a: string)
  {
    NoTypeHeadBefore(a, |a|)
  }

  /** A run of class k that reaches j continues exactly as the run from j. */
  lemma SpanThrough(s: string, i: nat, j: nat, k: CharClass)
    requires i <= j <= |s| && AllIn(s, i, j, k)
    ensures Span(s, i, k) == Span(s, j, k)
  {
    SpanMaximal(s, j, k);
    SpanIs(s, i, Span(s, j, k), k);
  }

  /** A match tried inside spaces that run up to the suffix behaves as at the start of the suffix. */
  lemma MatchAtThroughSpaces(s: string, d: nat, b: string, i: nat)
    requires Suffix(s, d, b) && i <= d && AllIn(s, i, d, Space)
    ensures MatchAt(s, i) == Moved(MatchAt(b, 0), d, i)
  {
    SpanThrough(s, i, d, Space);
    SpanShift(s, d, b, 0, Space);
    MatchRestShift(s, d, b, i, 0, Span(b, 0, Space));
  }

  /** A match tried in front of the suffix fails when a non-space lies ahead of it there. */
  lemma MatchAtJunk(s: string, d: nat, i: nat)
    requires d <= |s| && NoTypeHeadBefore(s, d) && i < d && !AllIn(s, i, d, Space)
    ensures MatchAt(s, i).None?
  {
    SpanMaximal(s, i, Space);
  }

  /** One position of junk: find() from i behaves as find() from i + 1, or as find() on the suffix. */
  lemma SkipJunkStep(s: string, d: nat, b: string, i: nat)
    requires Suffix(s, d, b) && NoTypeHeadBefore(s, d) && i < d
    requires SameEntry(FindFrom(s, i + 1), FindFrom(b, 0), d)
    ensures SameEntry(FindFrom(s, i), FindFrom(b, 0), d)
  {
    if AllIn(s, i, d, Space) {
      MatchAtThroughSpaces(s, d, b, i);
    } else {
      MatchAtJunk(s, d, i);
    }
  }

  lemma {:induction false} FindFromSkipsJunk(s: string, d: nat, b: string, i: nat)
    requires Suffix(s, d, b) && NoTypeHeadBefore(s, d) && i <= d
    ensures SameEntry(FindFrom(s, i), FindFrom(b, 0), d)
    decreases d - i
  {
    if i == d {
      FindFromShift(s, d, b, 0);
      ShiftedIsSameEntry(FindFrom(b, 0), d);
    } else {
      FindFromSkipsJunk(s, d, b, i + 1);
      SkipJunkStep(s, d, b, i);
    }
  }

  /** Junk in front of a suffix adds no entry and removes none. */
  lemma SkipsJunkBefore(s: string, d: nat, b: string)
    requires Suffix(s, d, b) && NoTypeHeadBefore(s, d)
    ensures Scan(s, 0) == Scan(b, 0)
  {
    FindFromSkipsJunk(s, d, b, 0);
    if FindFrom(b, 0).Some? {
      var e, n := FoundBoth(s, d, b, 0, 0);
      ScanShift(s, d, b, n);
    } else {
      NoneBoth(s, b, 0, 0);
    }
  }

  /**
   * Text that cannot start a type group is skipped silently: putting it in front
   * of a descriptor adds no entry and removes none.
   */
  lemma SkipsJunk(a: string, b: string)
    requires NoTypeHead(a)
    ensures Scan(a + b, 0) == Scan(b, 0)
  {
    assert Suffix(a + b, |a|, b);
    SkipsJunkBefore(a + b, |a|, b);
  }

  /** A descriptor in which no type group can start yields an empty struct. */
  lemma NoTypeHeadEmptyStruct(className: string, descriptor: string)
    requires NoTypeHead(descriptor)
    ensures Scan(descriptor, 0) == []
    ensures StructText(className, descriptor) == "struct Struct" + className + " {\n};\n"
  {
    SkipsJunkBefore(descriptor, |descriptor|, "");
  }

  /** When find() fails at once, the struct is the header directly followed by the footer. */
  lemma NoMatchEmptyStruct(className: string, descriptor: string)
    requires FindFrom(descriptor, 0).None?
    ensures StructText(className, descriptor) == "struct Struct" + className + " {\n};\n"
  {
  }

  // ---------------------------------------------------------------------------
  // Well-formed descriptors: space-separated "<type><size> <name>" entries

  /** An entry that the pattern can produce with an empty trailer. */
  predicate WellFormed(f: Field)
  {
    && |f.typ| >= 2 && In(f.typ[0], TypeHead) && AllIn(f.typ, 1, |f.typ|, TypeTail)
    && AllIn(f.size, 0, |f.size|, Digit)
    && |f.name| >= 1 && AllIn(f.name, 0, |f.name|, NameChar)
  }

  function EntryText(f: Field): string
  {
    f.typ + f.size + " " + f.name
  }

  /** The descriptor text for a list of entries, separated by single spaces. */
  function Join(fields: seq<Field>): string
  {
    if fields == [] then ""
    else if |fields| == 1 then EntryText(fields[0])
    else EntryText(fields[0]) + " " + Join(fields[1..])
  }

  /** A well-formed entry followed by the end or a space is found at once, whole. */
  lemma FindEntry(f: Field, rest: string)
    requires WellFormed(f)
    requires rest == "" || rest[0] == ' '
    ensures var s := EntryText(f) + rest;
            && FindFrom(s, 0).Some?
            && FindFrom(s, 0).value.end == |EntryText(f)|
            && FieldOf(s, FindFrom(s, 0).value) == f
  {
    var s := EntryText(f) + rest;
    var r := |f.typ|;
    var t := r + |f.size|;
    var u := t + 1;
    var v := u + |f.name|;
    assert s == f.typ + f.size + " " + f.name + rest;
    assert s[..r] == f.typ;
    assert s[r..t] == f.size;
    assert s[t] == ' ';
    assert s[u..v] == f.name;
    assert v == |s| || s[v] == ' ';
    var m := Match(0, 0, r, t, u, v, v);
    assert IsMatch(s, m);
    MatchAtComplete(s, m);
    SpanIs(s, u, v, NameChar);
    SpanIs(s, v, v, Trailer);
  }

  /** Scanning from the end of a prefix is scanning the suffix on its own. */
  lemma ScanShiftWhole(a: string, b: string)
    ensures Scan(a + b, |a|) == Scan(b, 0)
  {
    assert Suffix(a + b, |a|, b);
    ScanShift(a + b, |a|, b, 0);
  }

  /** A well-formed entry at the front is the first entry found; scanning resumes right after it. */
  lemma ScanEntryFirst(f: Field, rest: string)
    requires WellFormed(f)
    requires rest == "" || rest[0] == ' '
    ensures Scan(EntryText(f) + rest, 0) == [f] + Scan(EntryText(f) + rest, |EntryText(f)|)
  {
    FindEntry(f, rest);
  }

  /** A well-formed entry, a space and more text: the entry comes first, then the rest's entries. */
  lemma ScanEntryThenRest(f: Field, tail: string)
    requires WellFormed(f)
    ensures Scan(EntryText(f) + (" " + tail), 0) == [f] + Scan(tail, 0)
  {
    var e, rest := EntryText(f), " " + tail;
    ScanEntryFirst(f, rest);
    ScanShiftWhole(e, rest);
    SkipsJunk(" ", tail);
  }

  /** Scanning the text of well-formed entries gives back exactly those entries, in order. */
  lemma {:induction false} ScanJoin(fields: seq<Field>)
    requires forall i :: 0 <= i < |fields| ==> WellFormed(fields[i])
    ensures Scan(Join(fields), 0) == fields
  {
    if |fields| == 1 {
      var e := EntryText(fields[0]);
      ScanEntryFirst(fields[0], "");
      assert e + "" == e;
      assert FindFrom(e, |e|).None?;
    } else if |fields| > 1 {
      var tail := Join(fields[1..]);
      assert Join(fields) == EntryText(fields[0]) + (" " + tail);
      ScanEntryThenRest(fields[0], tail);
      ScanJoin(fields[1..]);
    }
  }
}

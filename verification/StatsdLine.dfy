/**
 The StatsD lines of the metrics service (packages/nest-telemetry/src/metrics.service.ts): the printer,
 and a parser that splits on the four characters the protocol gives meaning to.
 */
module StatsdLine {
  import opened Wrappers
  import opened Text

  const MAX_SEGMENT_LENGTH := 64

  datatype StatsdType = Counter | Timer | Gauge

  datatype Tag = Tag(key: string, value: string)

  /** A tag as its caller gives it; a value may be missing. */
  datatype RawTag = RawTag(key: string, value: Option<string>)

  // ----- The printer -----

  predicate NameChar(c: char) {
    'A' <= c <= 'Z' || 'a' <= c <= 'z' || '0' <= c <= '9' || c == '_'
  }

  predicate NotNameChar(c: char) {
    !NameChar(c)
  }

  function SanitiseName(value: string): string {
    var name := Slice(ReplaceEach(value, NotNameChar, '_'), MAX_SEGMENT_LENGTH);
    if name == [] then "_" else name
  }

  predicate ValueChar(c: char) {
    NameChar(c) || c == ' ' || c == '.' || c == '-'
  }

  predicate NotValueChar(c: char) {
    !ValueChar(c)
  }

  /** Of the whitespace only the space can still be there. */
  predicate Space(c: char) {
    c == ' '
  }

  predicate Underscore(c: char) {
    c == '_'
  }

  function Tidied(value: string): string {
    var allowed := ReplaceRuns(value, NotValueChar, '_');
    Trim(ReplaceRuns(ReplaceRuns(allowed, Space, '_'), Underscore, '_'), '_')
  }

  function Capped(tidied: string): string {
    var value := Slice(tidied, MAX_SEGMENT_LENGTH);
    if value == [] then "unknown" else value
  }

  /** `value ?? ''` */
  function TextOf(value: Option<string>): string {
    if value.Some? then value.value else ""
  }

  function SanitiseTagValue(value: Option<string>): string {
    Capped(Tidied(TextOf(value)))
  }

  function Digit(n: nat): char
    requires n < 10
  {
    "0123456789"[n]
  }

  function NatText(n: nat): string {
    if n < 10 then [Digit(n)] else NatText(n / 10) + [Digit(n % 10)]
  }

  function IntText(n: int): string {
    if n < 0 then "-" + NatText(-n) else NatText(n)
  }

  function TypeText(t: StatsdType): string {
    match t
    case Counter => "c"
    case Timer => "ms"
    case Gauge => "g"
  }

  function Override(environment: string, tags: seq<RawTag>): Option<string> {
    if tags == [] then Some(environment)
    else if tags[0].key == "environment" then tags[0].value
    else Override(environment, tags[1..])
  }

  function Others(tags: seq<RawTag>): seq<RawTag> {
    if tags == [] then []
    else (if tags[0].key == "environment" then [] else [tags[0]]) + Others(tags[1..])
  }

  /** The ambient environment first, with the caller's value for it if there is one. */
  function AllTags(environment: string, tags: seq<RawTag>): seq<RawTag> {
    [RawTag("environment", Override(environment, tags))] + Others(tags)
  }

  predicate IsEnvironment(tag: RawTag) {
    tag.key == "environment"
  }

  lemma {:induction false} OthersAreTheRest(tags: seq<RawTag>)
    ensures forall tag :: tag in Others(tags) <==> tag in tags && !IsEnvironment(tag)
  {
    if tags != [] {
      OthersAreTheRest(tags[1..]);
      assert tags == [tags[0]] + tags[1..];
    }
  }

  lemma {:induction false} OverrideIsTheirs(environment: string, tags: seq<RawTag>, tag: RawTag)
    requires tag in tags && IsEnvironment(tag)
    requires forall other :: other in tags && IsEnvironment(other) ==> other == tag
    ensures Override(environment, tags) == tag.value
  {
    assert tags[0] in tags;
    if !IsEnvironment(tags[0]) {
      assert tag in tags[1..];
      assert forall other :: other in tags[1..] ==> other in tags;
      OverrideIsTheirs(environment, tags[1..], tag);
    }
  }

  lemma {:induction false} OverrideIsAmbient(environment: string, tags: seq<RawTag>)
    requires forall tag :: tag in tags ==> !IsEnvironment(tag)
    ensures Override(environment, tags) == Some(environment)
  {
    if tags != [] {
      assert tags[0] in tags;
      OverrideIsAmbient(environment, tags[1..]);
    }
  }

  /**
   The line carries the caller's tags and no others, but for an environment: theirs if they give one,
   else the ambient one, and first in either case.
   */
  lemma AllTagsAreTheirs(environment: string, tags: seq<RawTag>)
    requires forall a, b :: a in tags && b in tags && IsEnvironment(a) && IsEnvironment(b) ==> a == b
    ensures var all := AllTags(environment, tags);
      && IsEnvironment(all[0])
      && (all[0] in tags
          || (all[0] == RawTag("environment", Some(environment)) && forall tag :: tag in tags ==> !IsEnvironment(tag)))
      && (forall tag :: tag in all[1..] <==> tag in tags && !IsEnvironment(tag))
  {
    OthersAreTheRest(tags);
    var all := AllTags(environment, tags);
    assert all[1..] == Others(tags);
    if tag :| tag in tags && IsEnvironment(tag) {
      OverrideIsTheirs(environment, tags, tag);
      assert all[0] == tag;
    } else {
      OverrideIsAmbient(environment, tags);
    }
  }

  function Sanitised(tags: seq<RawTag>): seq<Tag> {
    if tags == [] then []
    else [Tag(SanitiseName(tags[0].key), SanitiseTagValue(tags[0].value))] + Sanitised(tags[1..])
  }

  function TagPart(tags: seq<Tag>): string {
    if tags == [] then [] else "," + tags[0].key + "=" + tags[0].value + TagPart(tags[1..])
  }

  function Print(metric: string, tags: seq<Tag>, n: int, t: StatsdType): string {
    metric + TagPart(tags) + ":" + IntText(n) + "|" + TypeText(t)
  }

  function Format(environment: string, name: string, n: int, tags: seq<RawTag>, t: StatsdType): string {
    Print(SanitiseName(name), Sanitised(AllTags(environment, tags)), n, t)
  }

  // ----- The parser -----

  datatype Line = Line(name: string, tags: seq<Tag>, n: int, statsdType: StatsdType)

  /** The text before the first `c`, and after it. */
  function Cut(s: string, c: char): (parts: Option<(string, string)>)
    ensures parts.Some? ==> |parts.value.1| < |s|
  {
    if s == [] then None
    else if s[0] == c then Some(([], s[1..]))
    else
      var rest := Cut(s[1..], c);
      if rest.None? then None else Some(([s[0]] + rest.value.0, rest.value.1))
  }

  /** The pieces of `s` between the commas. */
  function Split(s: string): seq<string>
    decreases |s|
  {
    var parts := Cut(s, ',');
    if parts.None? then [s] else [parts.value.0] + Split(parts.value.1)
  }

  function ParseTag(s: string): Option<Tag> {
    var parts := Cut(s, '=');
    if parts.None? then None else Some(Tag(parts.value.0, parts.value.1))
  }

  function ParseTags(segments: seq<string>): Option<seq<Tag>> {
    if segments == [] then Some([])
    else
      var first, rest := ParseTag(segments[0]), ParseTags(segments[1..]);
      if first.None? || rest.None? then None else Some([first.value] + rest.value)
  }

  predicate IsDigit(c: char) {
    '0' <= c <= '9'
  }

  function ParseNat(s: string): Option<nat>
    decreases |s|
  {
    if s == [] || !IsDigit(s[|s| - 1]) then None
    else
      var last := s[|s| - 1] as int - '0' as int;
      if |s| == 1 then Some(last)
      else
        var front := ParseNat(s[..|s| - 1]);
        if front.None? then None else Some(10 * front.value + last)
  }

  function ParseInt(s: string): Option<int> {
    if s != [] && s[0] == '-' then
      var n := ParseNat(s[1..]);
      if n.None? then None else var m: int := n.value; Some(-m)
    else
      var n := ParseNat(s);
      if n.None? then None else Some(n.value)
  }

  function ParseType(s: string): Option<StatsdType> {
    if s == "c" then Some(Counter) else if s == "ms" then Some(Timer) else if s == "g" then Some(Gauge) else None
  }

  function ParseLine(s: string): Option<Line> {
    var measured := Cut(s, ':');
    if measured.None? then None
    else
      var typed := Cut(measured.value.1, '|');
      if typed.None? then None
      else
        ParseParts(measured.value.0, typed.value.0, typed.value.1)
  }

  function ParseParts(head: string, number: string, statsdType: string): Option<Line> {
    var segments := Split(head);
    var tags := ParseTags(segments[1..]);
    var n := ParseInt(number);
    var t := ParseType(statsdType);
    if tags.None? || n.None? || t.None? then None else Some(Line(segments[0], tags.value, n.value, t.value))
  }

  // ----- The parser undoes the printer -----

  ghost predicate Without(s: string, c: char) {
    forall i :: 0 <= i < |s| ==> s[i] != c
  }

  /** None of the characters with a meaning to the protocol, nor a line break. */
  ghost predicate Plain(s: string) {
    Only(s, ValueChar)
  }

  lemma {:induction false} CutAtFirst(before: string, c: char, after: string)
    requires Without(before, c)
    ensures Cut(before + [c] + after, c) == Some((before, after))
  {
    var s := before + [c] + after;
    if before == [] {
      assert s[1..] == after;
    } else {
      assert s[1..] == before[1..] + [c] + after;
      CutAtFirst(before[1..], c, after);
      assert [before[0]] + before[1..] == before;
    }
  }

  lemma {:induction false} CutNowhere(s: string, c: char)
    requires Without(s, c)
    ensures Cut(s, c) == None
  {
    if s != [] { CutNowhere(s[1..], c); }
  }

  function TagText(tag: Tag): string {
    tag.key + "=" + tag.value
  }

  function TagTexts(tags: seq<Tag>): seq<string> {
    if tags == [] then [] else [TagText(tags[0])] + TagTexts(tags[1..])
  }

  ghost predicate PlainTags(tags: seq<Tag>) {
    tags == [] || (Plain(tags[0].key) && Plain(tags[0].value) && PlainTags(tags[1..]))
  }

  lemma {:induction false} SplitTagPart(head: string, tags: seq<Tag>)
    requires Without(head, ',') && PlainTags(tags)
    ensures Split(head + TagPart(tags)) == [head] + TagTexts(tags)
    decreases |tags|
  {
    if tags == [] {
      CutNowhere(head, ',');
      assert head + TagPart(tags) == head;
    } else {
      var text, rest := TagText(tags[0]), TagPart(tags[1..]);
      assert TagPart(tags) == [','] + (text + rest);
      assert head + TagPart(tags) == head + [','] + (text + rest);
      CutAtFirst(head, ',', text + rest);
      SplitTagPart(text, tags[1..]);
    }
  }

  lemma {:induction false} ParseTagTexts(tags: seq<Tag>)
    requires PlainTags(tags)
    ensures ParseTags(TagTexts(tags)) == Some(tags)
  {
    if tags != [] {
      CutAtFirst(tags[0].key, '=', tags[0].value);
      assert TagText(tags[0]) == tags[0].key + ['='] + tags[0].value;
      ParseTagTexts(tags[1..]);
      assert TagTexts(tags)[1..] == TagTexts(tags[1..]);
      assert [tags[0]] + tags[1..] == tags;
    }
  }

  lemma {:induction false} ParseNatText(n: nat)
    ensures ParseNat(NatText(n)) == Some(n)
    ensures NatText(n) != [] && Only(NatText(n), IsDigit)
  {
    if n >= 10 {
      ParseNatText(n / 10);
      var text := NatText(n);
      assert text[..|text| - 1] == NatText(n / 10);
    }
  }

  lemma ParseIntText(n: int)
    ensures ParseInt(IntText(n)) == Some(n) && Without(IntText(n), '|')
  {
    ParseNatText(if n < 0 then -n else n);
    if n < 0 {
      assert IntText(n)[1..] == NatText(-n);
    } else {
      assert IsDigit(NatText(n)[0]);
    }
  }

  /** A number is printed as the protocol expects: a sign for negative ones only, and no leading zero. */
  lemma NumberIsCanonical(n: int)
    ensures IntText(n)[0] == '-' <==> n < 0
    ensures n != 0 ==> IntText(n)[if n < 0 then 1 else 0] != '0'
    ensures n == 0 ==> IntText(n) == "0"
  {
    NatTextLeads(if n < 0 then -n else n);
  }

  lemma {:induction false} NatTextLeads(n: nat)
    ensures NatText(n) != [] && IsDigit(NatText(n)[0])
    ensures n > 0 ==> NatText(n)[0] != '0'
  {
    if n >= 10 { NatTextLeads(n / 10); }
  }

  lemma {:induction false} TagPartWithout(tags: seq<Tag>)
    requires PlainTags(tags)
    ensures Without(TagPart(tags), ':') && Without(TagPart(tags), '\n')
  {
    if tags != [] {
      TagPartWithout(tags[1..]);
    }
  }

  /** What the protocol's identifiers are made of. */
  predicate IsIdentifierChar(c: char) {
    'A' <= c <= 'Z' || 'a' <= c <= 'z' || '0' <= c <= '9' || c == '_'
  }

  /**
   Character by character: the first 64 stay or, where they are not letters, digits or underscores,
   become an underscore, a dot too. Only an empty name gets a character of its own.
   */
  lemma NameIsPlain(value: string)
    ensures Plain(SanitiseName(value)) && 1 <= |SanitiseName(value)| <= MAX_SEGMENT_LENGTH
    ensures value == "" ==> SanitiseName(value) == "_"
    ensures value != "" ==> |SanitiseName(value)| == if |value| < 64 then |value| else 64
    ensures forall i :: 0 <= i < |value| && i < 64 ==>
              SanitiseName(value)[i] == if IsIdentifierChar(value[i]) then value[i] else '_'
    ensures SanitiseName(value) == value <==> Only(value, IsIdentifierChar) && 1 <= |value| <= 64
  {
  }

  // ----- Tag values -----

  ghost predicate Tidy(s: string) {
    Only(s, ValueChar) && Without(s, ' ') && NoDouble(s, '_') && (s != [] ==> s[0] != '_')
  }

  /** What tidying leaves: allowed characters but the space, and underscores only one by one and not first. */
  lemma TidiedIsTidy(value: string)
    ensures Tidy(Tidied(value))
  {
    var allowed := ReplaceRuns(value, NotValueChar, '_');
    ReplaceRunsWithin(value, NotValueChar, '_', ValueChar);
    var spaceless := ReplaceRuns(allowed, Space, '_');
    ReplaceRunsWithin(allowed, Space, '_', TidyChar);
    var single := ReplaceRuns(spaceless, Underscore, '_');
    ReplaceRunsWithin(spaceless, Underscore, '_', TidyChar);
    ReplaceRunsNoDouble(spaceless, Underscore, '_');
    TrimKeeps(single, '_', TidyChar);
    TrimEnds(single, '_');
    assert Only(Tidied(value), TidyChar);
  }

  predicate TidyChar(c: char) {
    ValueChar(c) && c != ' '
  }

  lemma {:induction false} TidyStaysTidied(s: string)
    requires Only(s, ValueChar) && Without(s, ' ') && NoDouble(s, '_')
    ensures Tidied(s) == Trim(s, '_')
  {
    ReplaceRunsNone(s, NotValueChar, '_');
    ReplaceRunsNone(s, Space, '_');
    ReplaceRunsSingles(s, Underscore, '_');
  }

  ghost predicate TidySegment(s: string) {
    Tidy(s) && 1 <= |s| <= MAX_SEGMENT_LENGTH
  }

  lemma CappedIsTidy(s: string)
    requires Tidy(s)
    ensures TidySegment(Capped(s))
  {
    SliceKeeps(s, MAX_SEGMENT_LENGTH, ValueChar, '_');
  }

  lemma ValueIsTidy(value: Option<string>)
    ensures TidySegment(SanitiseTagValue(value))
  {
    TidiedIsTidy(TextOf(value));
    CappedIsTidy(Tidied(TextOf(value)));
  }

  /** Sanitising again changes a value exactly when the cut at 64 characters left an underscore at its end. */
  lemma SanitisedAgain(value: Option<string>)
    ensures var r := SanitiseTagValue(value);
      SanitiseTagValue(Some(r)) == r <==> r[|r| - 1] != '_'
  {
    var r := SanitiseTagValue(value);
    ValueIsTidy(value);
    TidyStaysTidied(r);
    TrimEnds(r, '_');
  }

  /** A value of letters, digits, dots, hyphens and underscores, the underscores single and inside. */
  ghost predicate IsCleanValue(s: string) {
    && 1 <= |s| <= 64
    && (forall i :: 0 <= i < |s| ==> IsIdentifierChar(s[i]) || s[i] == '.' || s[i] == '-')
    && (forall i :: 0 <= i < |s| - 1 ==> !(s[i] == '_' && s[i + 1] == '_'))
    && s[0] != '_' && s[|s| - 1] != '_'
  }

  /** Exactly the clean values are written as they are given. */
  lemma ValueStaysExactlyWhen(value: string)
    ensures SanitiseTagValue(Some(value)) == value <==> IsCleanValue(value)
  {
    if SanitiseTagValue(Some(value)) == value {
      ValueIsTidy(Some(value));
      SanitisedAgain(Some(value));
      assert IsCleanValue(value);
    } else if IsCleanValue(value) {
      assert Only(value, ValueChar);
      TidyStaysTidied(value);
      TrimEnds(value, '_');
      assert false;
    }
  }

  /** Neither a letter, a digit, a dot nor a hyphen. */
  predicate NotTagLetter(c: char) {
    !(IsIdentifierChar(c) || c == '.' || c == '-') || c == '_'
  }

  lemma TidyingKeepsLetters(value: string)
    ensures RemoveEach(Tidied(value), NotTagLetter) == RemoveEach(value, NotTagLetter)
    ensures |Tidied(value)| <= |value|
  {
    var allowed := ReplaceRuns(value, NotValueChar, '_');
    ReplaceRunsKeeps(value, NotValueChar, '_', NotTagLetter);
    ReplaceRunsShortens(value, NotValueChar, '_');
    var spaceless := ReplaceRuns(allowed, Space, '_');
    ReplaceRunsKeeps(allowed, Space, '_', NotTagLetter);
    ReplaceRunsShortens(allowed, Space, '_');
    var single := ReplaceRuns(spaceless, Underscore, '_');
    ReplaceRunsKeeps(spaceless, Underscore, '_', NotTagLetter);
    ReplaceRunsShortens(spaceless, Underscore, '_');
    TrimLeftKeeps(single, '_', NotTagLetter);
    TrimRightKeeps(TrimLeft(single, '_'), '_', NotTagLetter);
  }

  /**
   A sanitised value spells the letters, digits, dots and hyphens of the value given: all of them, in
   order, or as many as there are up to the cut at 64 characters. It says "unknown" in their place
   exactly when there is none.
   */
  lemma ValueSpellsTheTag(value: string)
    ensures var r := SanitiseTagValue(Some(value));
            var letters, spelled := RemoveEach(value, NotTagLetter), RemoveEach(r, NotTagLetter);
      if letters == [] then r == "unknown"
      else spelled != [] && spelled <= letters && (spelled == letters || |r| == 64)
    ensures RemoveEach(value, NotTagLetter) != [] && |value| <= 64 ==>
      RemoveEach(SanitiseTagValue(Some(value)), NotTagLetter) == RemoveEach(value, NotTagLetter)
  {
    var tidied := Tidied(value);
    TidyingKeepsLetters(value);
    TidiedIsTidy(value);
    SliceKeepsPrefix(tidied, MAX_SEGMENT_LENGTH, NotTagLetter);
    if tidied != [] {
      assert !NotTagLetter(tidied[0]);
      assert Slice(tidied, MAX_SEGMENT_LENGTH)[0] == tidied[0];
    }
  }

  lemma {:induction false} SanitisedArePlain(tags: seq<RawTag>)
    ensures PlainTags(Sanitised(tags)) && |Sanitised(tags)| == |tags|
  {
    if tags != [] {
      NameIsPlain(tags[0].key);
      ValueIsTidy(tags[0].value);
      SanitisedArePlain(tags[1..]);
    }
  }

  lemma ParsePartsOf(metric: string, tags: seq<Tag>, n: int, t: StatsdType)
    requires Plain(metric) && PlainTags(tags)
    ensures ParseParts(metric + TagPart(tags), IntText(n), TypeText(t)) == Some(Line(metric, tags, n, t))
  {
    ParseIntText(n);
    SplitTagPart(metric, tags);
    ParseTagTexts(tags);
    assert ([metric] + TagTexts(tags))[1..] == TagTexts(tags);
  }

  lemma CutLine(head: string, number: string, statsdType: string)
    requires Without(head, ':') && Without(number, '|')
    ensures ParseLine(head + ":" + number + "|" + statsdType) == ParseParts(head, number, statsdType)
  {
    var measure := number + ['|'] + statsdType;
    assert head + ":" + number + "|" + statsdType == head + [':'] + measure;
    CutAtFirst(head, ':', measure);
    CutAtFirst(number, '|', statsdType);
  }

  lemma ParseUndoesPrint(metric: string, tags: seq<Tag>, n: int, t: StatsdType)
    requires Plain(metric) && PlainTags(tags)
    ensures ParseLine(Print(metric, tags, n, t)) == Some(Line(metric, tags, n, t))
  {
    TagPartWithout(tags);
    ParseIntText(n);
    WithoutAppend(metric, TagPart(tags), ':');
    CutLine(metric + TagPart(tags), IntText(n), TypeText(t));
    ParsePartsOf(metric, tags, n, t);
  }

  /** For every name, tags, number and type the line parses back to them, sanitised and in order. */
  lemma ParseUndoesFormat(environment: string, name: string, n: int, tags: seq<RawTag>, t: StatsdType)
    ensures ParseLine(Format(environment, name, n, tags, t))
         == Some(Line(SanitiseName(name), Sanitised(AllTags(environment, tags)), n, t))
  {
    NameIsPlain(name);
    SanitisedArePlain(AllTags(environment, tags));
    ParseUndoesPrint(SanitiseName(name), Sanitised(AllTags(environment, tags)), n, t);
  }

  lemma PrintIsOneLine(metric: string, tags: seq<Tag>, n: int, t: StatsdType)
    requires Plain(metric) && PlainTags(tags)
    ensures Without(Print(metric, tags, n, t), '\n')
  {
    TagPartWithout(tags);
    ParseNatText(if n < 0 then -n else n);
    assert Without(IntText(n), '\n');
    WithoutAppend(metric, TagPart(tags), '\n');
    WithoutAppend(metric + TagPart(tags), ":", '\n');
    WithoutAppend(metric + TagPart(tags) + ":", IntText(n), '\n');
    WithoutAppend(metric + TagPart(tags) + ":" + IntText(n), "|", '\n');
    WithoutAppend(metric + TagPart(tags) + ":" + IntText(n) + "|", TypeText(t), '\n');
  }

  lemma WithoutAppend(a: string, b: string, c: char)
    requires Without(a, c) && Without(b, c)
    ensures Without(a + b, c)
  {
  }

  /** Whatever it is given, a line is one line. */
  lemma OneLine(environment: string, name: string, n: int, tags: seq<RawTag>, t: StatsdType)
    ensures Without(Format(environment, name, n, tags, t), '\n')
  {
    NameIsPlain(name);
    SanitisedArePlain(AllTags(environment, tags));
    PrintIsOneLine(SanitiseName(name), Sanitised(AllTags(environment, tags)), n, t);
  }
}

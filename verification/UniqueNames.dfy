/** internal/uniquename: candidate names for a file, and the time that can be read from them. */
module UniqueNames {
  import opened Options
  import opened Text
  import opened Calendar

  const NAME_MAX: int := 255

  /** uniquename.Options; the layouts are those of the default options. */
  datatype Settings = Settings(timePrefix: bool, beforeExtension: bool, maxExtensionLength: int)

  const DEFAULT: Settings := Settings(true, true, 10)
  const JOURNAL: Settings := Settings(true, false, 10)

  // ---------- Characters ----------

  /** unicode.IsSpace */
  predicate IsSpace(c: char) {
    var n := c as int;
    || (9 <= n <= 13) || n == 0x20 || n == 0x85 || n == 0xa0 || n == 0x1680 || (0x2000 <= n <= 0x200a)
    || n == 0x2028 || n == 0x2029 || n == 0x202f || n == 0x205f || n == 0x3000
  }

  predicate Ascii(s: string) {
    forall i | 0 <= i < |s| :: (s[i] as int) < 0x80
  }

  lemma {:induction false} AsciiBytes(s: string)
    requires Ascii(s)
    ensures Bytes(s) == |s|
  {
    if s != [] {
      AsciiBytes(s[..|s| - 1]);
    }
  }

  function HexDigit(n: nat): char
    requires n < 16
  {
    if n < 10 then '0' + n as char else 'a' + (n - 10) as char
  }

  /** strconv.FormatInt with base 16, of a number that is not negative */
  function Hex(n: nat): (s: string)
    ensures Ascii(s)
  {
    if n < 16 then [HexDigit(n)] else Hex(n / 16) + [HexDigit(n % 16)]
  }

  /** The number that hexadecimal digits stand for. */
  function HexNumber(s: string): Option<nat> {
    if s == [] then Some(0)
    else
      var rest, c := HexNumber(s[..|s| - 1]), s[|s| - 1];
      if rest == None then None
      else if '0' <= c <= '9' then Some(16 * rest.value + (c - '0') as nat)
      else if 'a' <= c <= 'f' then Some(16 * rest.value + 10 + (c - 'a') as nat)
      else None
  }

  /** A number's digits are read back, and there is no leading zero. */
  lemma {:induction false} HexRoundTrip(n: nat)
    ensures HexNumber(Hex(n)) == Some(n) && Hex(n) != [] && (0 < n ==> Hex(n)[0] != '0')
  {
    if n < 16 {
      assert Hex(n)[..0] == [];
    } else {
      HexRoundTrip(n / 16);
      assert Hex(n)[..|Hex(n)| - 1] == Hex(n / 16);
    }
  }

  /** Different numbers are written differently. */
  lemma HexInjective(a: nat, b: nat)
    requires Hex(a) == Hex(b)
    ensures a == b
  {
    HexRoundTrip(a);
    HexRoundTrip(b);
  }

  function Power16(w: nat): nat {
    if w == 0 then 1 else 16 * Power16(w - 1)
  }

  lemma {:induction false} HexLength(n: nat, w: nat)
    requires n < Power16(w) && 1 <= w
    ensures |Hex(n)| <= w
  {
    if 16 <= n {
      assert 2 <= w by {
        assert Power16(1) == 16;
      }
      HexLength(n / 16, w - 1);
    }
  }

  // ---------- Graphemes ----------

  /** g splits texts into graphemes: no text is lost and no grapheme is empty. */
  ghost predicate Segments(g: string -> seq<string>) {
    forall s :: Joined(g(s)) == s && forall i | 0 <= i < |g(s)| :: g(s)[i] != []
  }

  /** There is a grapheme boundary between a digit and a space. */
  ghost predicate BreaksBeforeSpace(g: string -> seq<string>) {
    forall s, i {:trigger g(s), s[i]} | 0 < i < |s| && '0' <= s[i - 1] <= '9' && s[i] == ' ' :: Boundary(g(s), s[..i])
  }

  ghost predicate Boundary(pieces: seq<string>, head: string) {
    exists k :: 0 <= k <= |pieces| && Joined(pieces[..k]) == head
  }

  // ---------- The generator ----------

  /** filepath.Ext: what follows the last dot, with the dot. */
  function Extension(name: string): (ext: string)
    ensures |ext| <= |name| && ext == name[|name| - |ext|..]
    ensures ext == [] <==> '.' !in name
    ensures ext != [] ==> ext[0] == '.' && '.' !in ext[1..]
  {
    if name == [] then []
    else if name[|name| - 1] == '.' then "."
    else
      var ext := Extension(name[..|name| - 1]);
      if ext == [] then [] else ext + [name[|name| - 1]]
  }

  /** Where New divides a name, before known suffixes are stripped from the first part. */
  function Divided(name: string, settings: Settings): (r: (string, string))
    ensures r.0 + r.1 == name && (name != [] ==> r.0 != [])
    ensures
      || r.1 == []
      || (r.1 == Extension(name) && settings.beforeExtension && Bytes(r.1) < settings.maxExtensionLength)
    ensures
      settings.beforeExtension && Bytes(Extension(name)) < settings.maxExtensionLength && |Extension(name)| < |name|
      ==> r.1 == Extension(name)
  {
    var ext := Extension(name);
    if settings.beforeExtension && settings.maxExtensionLength > 0 && Bytes(ext) < settings.maxExtensionLength then
      if |ext| == |name| then (name, []) else (name[..|name| - |ext|], ext)
    else
      (name, [])
  }

  function Stamp(t: Time, zone: Offset): string
    requires InRange(t, zone)
  {
    FormatClock(ClockOf(LocalSeconds(t, zone)))
  }

  /** Go's reference time, which is 1136239445 seconds after the start of 1970, as its own zone shows it. */
  lemma StampOfReference()
    ensures var t, zone := (719528 * 86400 + 1136239445) * SECOND, -7 * 3600;
      InRange(t, zone) && Stamp(t, zone) == "2006-01-02T150405"
  {
    hide YearStart, MonthStart, DateOf, FormatClock;
    ReferenceSecond();
    ClockIsRead(Clock(Date(2006, 1, 2), 15, 4, 5));
    LayoutsShowReference();
  }

  function Middle(uniq: string): string {
    " (" + uniq + ")"
  }

  datatype Parts = Parts(timePrefix: string, prefix: string, suffix: string)

  /** name is the longest candidate for the parts that is told apart by uniq. */
  ghost predicate Numbered(g: string -> seq<string>, parts: Parts, uniq: string, name: string) {
    exists p, q ::
      && BestCut(g(parts.timePrefix + parts.prefix), Middle(uniq), g(parts.suffix), NAME_MAX, p, q)
      && name == Cut(g(parts.timePrefix + parts.prefix), Middle(uniq), g(parts.suffix), p, q)
  }

  /** name is one of the names for a file called original. */
  ghost predicate Candidate(g: string -> seq<string>, parts: Parts, original: string, name: string) {
    name == parts.timePrefix + original || exists uniq :: Bytes(Middle(uniq)) <= 17 && Numbered(g, parts, uniq, name)
  }

  class Generator {
    const graphemes: string -> seq<string>
    const zone: Offset
    const timePrefix: string
    const prefix: string
    const suffix: string
    var originalName: string
    var timeSuffix: Time

    /** New for a name that is not empty. `strip` removes known suffixes. */
    constructor (name: string, settings: Settings, now: Time, zone: Offset,
                 graphemes: string -> seq<string>, strip: string -> string)
      requires InRange(now, zone) && name != []
      ensures Valid() && this.graphemes == graphemes && this.zone == zone
      ensures View() == Parts(if settings.timePrefix then Stamp(now, zone) + " " else "",
                              strip(Divided(name, settings).0), Divided(name, settings).1)
      ensures originalName == name && timeSuffix == if settings.timePrefix then ZERO_TIME else now
    {
      this.graphemes, this.zone := graphemes, zone;
      originalName := name;
      prefix := strip(Divided(name, settings).0);
      suffix := Divided(name, settings).1;
      if settings.timePrefix {
        timePrefix := Stamp(now, zone) + " ";
        timeSuffix := ZERO_TIME;
      } else {
        timePrefix := "";
        timeSuffix := now;
      }
    }

    function View(): Parts {
      Parts(timePrefix, prefix, suffix)
    }

    ghost predicate Valid()
      reads this
    {
      timeSuffix == ZERO_TIME || InRange(timeSuffix, zone)
    }

    /** Next; `random` is the number drawn. Candidates never run out. */
    method Next(random: nat) returns (name: string)
      requires random < 0x8000_0000 && Valid()
      modifies this
      ensures Valid() && originalName == [] && Candidate(graphemes, View(), old(originalName), name)
      ensures old(originalName) != [] ==> name == timePrefix + old(originalName) && timeSuffix == old(timeSuffix)
      ensures old(originalName) == [] ==>
        && timeSuffix == ZERO_TIME
        && Numbered(graphemes, View(), Uniq(old(timeSuffix), zone, random), name)
    {
      if originalName != [] {
        name := timePrefix + originalName;
        originalName := [];
        return;
      }
      var uniq := Uniq(timeSuffix, zone, random);
      UniqIsShort(timeSuffix, zone, random);
      timeSuffix := ZERO_TIME;
      var r, p, q := CombineWithMaxLen(graphemes(timePrefix + prefix), Middle(uniq), graphemes(suffix), NAME_MAX);
      name := r.value;
    }
  }

  /** New: a path without a name is an error. */
  method New(name: string, settings: Settings, now: Time, zone: Offset,
             graphemes: string -> seq<string>, strip: string -> string) returns (g: Option<Generator>)
    requires InRange(now, zone)
    ensures g == None <==> name == []
    ensures g.Some? ==> fresh(g.value) && g.value.Valid() && g.value.originalName == name
    ensures g.Some? ==> g.value.zone == zone && g.value.graphemes == graphemes
    ensures g.Some? ==> g.value.timeSuffix == if settings.timePrefix then ZERO_TIME else now
    ensures g.Some? ==> g.value.View() == Parts(if settings.timePrefix then Stamp(now, zone) + " " else "",
                                                strip(Divided(name, settings).0), Divided(name, settings).1)
  {
    if name == [] {
      return None;
    }
    var made := new Generator(name, settings, now, zone, graphemes, strip);
    g := Some(made);
  }

  /** What makes a candidate unique: the time at first, if the name does not begin with it, then random numbers. */
  function Uniq(timeSuffix: Time, zone: Offset, random: nat): string
    requires timeSuffix == ZERO_TIME || InRange(timeSuffix, zone)
  {
    if timeSuffix == ZERO_TIME then Hex(random) else FormatCompact(ClockOf(LocalSeconds(timeSuffix, zone)))
  }

  /** Without a time, it is the random number in hexadecimal digits: different numbers tell candidates apart. */
  lemma UniqTellsRandom(zone: Offset, random: nat, other: nat)
    ensures HexNumber(Uniq(ZERO_TIME, zone, random)) == Some(random)
    ensures random != other ==> Uniq(ZERO_TIME, zone, random) != Uniq(ZERO_TIME, zone, other)
  {
    HexRoundTrip(random);
    HexRoundTrip(other);
  }

  lemma HexIsShort(random: nat)
    requires random < 0x8000_0000
    ensures |Hex(random)| <= 8
  {
    assert Power16(2) == 0x100;
    assert Power16(4) == 0x1_0000;
    assert Power16(6) == 0x100_0000;
    assert Power16(8) == 0x1_0000_0000;
    HexLength(random, 8);
  }

  lemma UniqIsShort(timeSuffix: Time, zone: Offset, random: nat)
    requires (timeSuffix == ZERO_TIME || InRange(timeSuffix, zone)) && random < 0x8000_0000
    ensures Bytes(Middle(Uniq(timeSuffix, zone, random))) <= 17
  {
    var uniq := Uniq(timeSuffix, zone, random);
    HexIsShort(random);
    assert Ascii(uniq) by {
      if timeSuffix != ZERO_TIME {
        assert forall i | 0 <= i < |uniq| :: LayoutChar(uniq[i]);
      }
    }
    MiddleBytes(uniq);
  }

  lemma MiddleBytes(uniq: string)
    requires Ascii(uniq)
    ensures Bytes(Middle(uniq)) == |uniq| + 3
  {
    AsciiBytes(Middle(uniq));
  }

  // ---------- Lengths ----------

  /** Every candidate after the first fits into a directory entry. */
  lemma NumberedFits(g: string -> seq<string>, parts: Parts, uniq: string, name: string)
    requires Numbered(g, parts, uniq, name)
    ensures Bytes(name) <= NAME_MAX
  {
    var p, q :|
      && BestCut(g(parts.timePrefix + parts.prefix), Middle(uniq), g(parts.suffix), NAME_MAX, p, q)
      && name == Cut(g(parts.timePrefix + parts.prefix), Middle(uniq), g(parts.suffix), p, q);
    CutBytesAreBytes(g(parts.timePrefix + parts.prefix), Middle(uniq), g(parts.suffix), p, q);
  }

  /** What tells candidates apart is never cut; only the end of the first part and the start of the last one are. */
  lemma NumberedShape(g: string -> seq<string>, parts: Parts, uniq: string, name: string)
    returns (head: string, tail: string)
    requires Segments(g) && Numbered(g, parts, uniq, name)
    ensures name == head + " (" + uniq + ")" + tail && head <= parts.timePrefix + parts.prefix
    ensures |tail| <= |parts.suffix| && tail == parts.suffix[|parts.suffix| - |tail|..]
  {
    var text := parts.timePrefix + parts.prefix;
    var p: nat, q: nat :|
      BestCut(g(text), Middle(uniq), g(parts.suffix), NAME_MAX, p, q)
        && name == Cut(g(text), Middle(uniq), g(parts.suffix), p, q);
    TailBytes(g(text), p);
    TailBytes(g(parts.suffix), q);
    head, tail := Joined(g(text)[..p]), Joined(g(parts.suffix)[q..]);
    assert Joined(g(text)) == text && Joined(g(parts.suffix)) == parts.suffix;
    hide *;
    AroundMiddle(head, uniq, tail);
    EndOf(Joined(g(parts.suffix)[..q]), tail);
  }

  lemma AroundMiddle(head: string, uniq: string, tail: string)
    ensures head + Middle(uniq) + tail == head + " (" + uniq + ")" + tail
  {
  }

  lemma EndOf(a: string, b: string)
    ensures (a + b)[|a + b| - |b|..] == b
  {
  }

  lemma WholeBytes(pieces: seq<string>, middle: string, tail: seq<string>)
    ensures CutBytes(pieces, middle, tail, |pieces|, 0) == Bytes(Joined(pieces)) + Bytes(middle) + Bytes(Joined(tail))
    ensures Cut(pieces, middle, tail, |pieces|, 0) == Joined(pieces) + middle + Joined(tail)
  {
    assert pieces[..|pieces|] == pieces && tail[0..] == tail;
    hide Bytes, Joined;
  }

  /** Nothing is cut of a candidate that fits. */
  lemma NumberedWhole(g: string -> seq<string>, parts: Parts, uniq: string, name: string)
    requires Segments(g) && Numbered(g, parts, uniq, name)
    requires Bytes(parts.timePrefix + parts.prefix) + Bytes(uniq) + 3 + Bytes(parts.suffix) <= NAME_MAX
    ensures name == parts.timePrefix + parts.prefix + " (" + uniq + ")" + parts.suffix
  {
    var text := parts.timePrefix + parts.prefix;
    var pieces, tail := g(text), g(parts.suffix);
    assert Joined(pieces) == text && Joined(tail) == parts.suffix;
    var p: nat, q: nat :|
      BestCut(pieces, Middle(uniq), tail, NAME_MAX, p, q) && name == Cut(pieces, Middle(uniq), tail, p, q);
    hide Segments, Bytes, Joined, Numbered, CutBytes, Cut;
    MiddleTakesThree(uniq);
    WholeBytes(pieces, Middle(uniq), tail);
    assert p == |pieces| && q == 0;
    AroundMiddle(text, uniq, parts.suffix);
  }

  lemma MiddleTakesThree(uniq: string)
    ensures Bytes(Middle(uniq)) == Bytes(uniq) + 3
  {
    AsciiBytes(" (");
    AsciiBytes(")");
    BytesConcat(" (", uniq);
    BytesConcat(" (" + uniq, ")");
  }

  lemma StampBytes(t: Time, zone: Offset)
    requires InRange(t, zone)
    ensures Ascii(Stamp(t, zone)) && |Stamp(t, zone)| == 17 && Bytes(Stamp(t, zone) + " ") == 18
    ensures forall i | 0 <= i < 17 :: !IsSpace(Stamp(t, zone)[i])
    ensures '0' <= Stamp(t, zone)[16] <= '9'
  {
    hide FormatClock, ClockOf;
    var stamp := Stamp(t, zone);
    FormatParts(ClockOf(LocalSeconds(t, zone)));
    assert stamp[15..17][1] == stamp[16];
    forall i | 0 <= i < 17
      ensures (stamp[i] as int) < 0x80 && !IsSpace(stamp[i])
    {
      assert LayoutChar(stamp[i]);
    }
    AsciiBytes(stamp + " ");
  }

  /** The first candidate is not cut: with a time prefix it fits exactly if the name has 18 bytes to spare. */
  lemma FirstFitsIff(t: Time, zone: Offset, name: string)
    requires InRange(t, zone)
    ensures Bytes(Stamp(t, zone) + " " + name) <= NAME_MAX <==> Bytes(name) <= 237
  {
    StampBytes(t, zone);
    BytesConcat(Stamp(t, zone) + " ", name);
  }

  // ---------- Reading the time ----------

  function TrimLeft(s: string): string {
    if s != [] && IsSpace(s[0]) then TrimLeft(s[1..]) else s
  }

  /** The position of the first space; the length if there is none. */
  function FirstSpace(s: string): (n: nat)
    ensures n <= |s| && (forall i | 0 <= i < n :: !IsSpace(s[i])) && (n < |s| ==> IsSpace(s[n]))
  {
    if s == [] || IsSpace(s[0]) then 0 else 1 + FirstSpace(s[1..])
  }

  /** The name up to the first space, leading ones aside. */
  function FirstWord(name: string): string {
    var trimmed := TrimLeft(name);
    trimmed[..FirstSpace(trimmed)]
  }

  /** ExtractTime; None is ErrMissingTime. */
  function ExtractTime(name: string, zone: Offset): Option<Time> {
    var word := FirstWord(name);
    if |word| == 22 && ParseClock(word[..17]).Some? && ParseZone(word[17..]).Some? then
      Some((ParseClock(word[..17]).value.Seconds() - ParseZone(word[17..]).value) * SECOND)
    else if ParseClock(word).Some? then
      Some((ParseClock(word).value.Seconds() - zone) * SECOND)
    else
      None
  }

  function FloorSecond(t: Time): Time {
    t / SECOND * SECOND
  }

  /** Spaces before the word do not matter, and it ends before the next one or with the name. */
  lemma {:induction false} FirstWordIs(spaces: string, word: string, rest: string)
    requires (forall i | 0 <= i < |spaces| :: IsSpace(spaces[i])) && forall i | 0 <= i < |word| :: !IsSpace(word[i])
    requires word != [] && (rest == [] || IsSpace(rest[0]))
    ensures FirstWord(spaces + word + rest) == word
  {
    var name := spaces + word + rest;
    if spaces == [] {
      assert name == word + rest && forall i | 0 <= i < |word| :: name[i] == word[i];
      assert rest != [] ==> name[|word|] == rest[0];
      assert FirstSpace(name) == |word|;
    } else {
      FirstWordIs(spaces[1..], word, rest);
      assert name[0] == spaces[0] && name[1..] == spaces[1..] + word + rest;
    }
  }

  lemma FirstWordOf(word: string, name: string)
    requires word != [] && word + " " <= name && forall i | 0 <= i < |word| :: !IsSpace(word[i])
    ensures FirstWord(name) == word
  {
    var rest := name[|word|..];
    assert rest[0] == ' ' && "" + word + rest == name;
    FirstWordIs("", word, rest);
  }

  /** The word is a time of the calendar in one of the two layouts. */
  ghost predicate TellsTime(word: string) {
    exists c: Clock :: c.Valid() && Fits(c) && (word == FormatClock(c) || TellsZoned(word, c))
  }

  ghost predicate TellsZoned(word: string, c: Clock) {
    exists negative, hours: nat, minutes: nat ::
      hours <= 24 && minutes <= 60 && word == FormatClock(c) + FormatZone(negative, hours, minutes)
  }

  /** A time is read exactly if the name's first word is one. */
  lemma ExtractIff(name: string, zone: Offset)
    ensures ExtractTime(name, zone).Some? <==> TellsTime(FirstWord(name))
  {
    hide FormatClock, FormatZone, ParseClock, ParseZone, FirstWord;
    var word := FirstWord(name);
    if ExtractTime(name, zone).Some? {
      if |word| == 22 && ParseClock(word[..17]).Some? && ParseZone(word[17..]).Some? {
        FormatParse(word[..17]);
        FormatParseZone(word[17..]);
        assert word == word[..17] + word[17..];
        assert TellsZoned(word, ParseClock(word[..17]).value);
      } else {
        FormatParse(word);
      }
    }
    if TellsTime(word) {
      var c: Clock :| c.Valid() && Fits(c) && (word == FormatClock(c) || TellsZoned(word, c));
      ParseFormat(c);
      if word != FormatClock(c) {
        var negative, hours: nat, minutes: nat :|
          hours <= 24 && minutes <= 60 && word == FormatClock(c) + FormatZone(negative, hours, minutes);
        ParseFormatZone(negative, hours, minutes);
        assert word[..17] == FormatClock(c) && word[17..] == FormatZone(negative, hours, minutes);
      }
    }
  }

  lemma ParseStamp(t: Time, zone: Offset)
    requires InRange(t, zone)
    ensures ParseClock(Stamp(t, zone)).Some? && ParseClock(Stamp(t, zone)).value.Seconds() == LocalSeconds(t, zone)
  {
    YearInRange(t, zone);
    ClockRoundTrip(LocalSeconds(t, zone));
    ParseFormat(ClockOf(LocalSeconds(t, zone)));
  }

  /** A time stamp followed by a space is read back to the second. */
  lemma ExtractStamp(t: Time, zone: Offset, name: string)
    requires InRange(t, zone) && Stamp(t, zone) + " " <= name
    ensures ExtractTime(name, zone) == Some(FloorSecond(t))
  {
    StampBytes(t, zone);
    FirstWordOf(Stamp(t, zone), name);
    ParseStamp(t, zone);
  }

  /** A time stamp that tells its zone is read by it, whatever the zone is now. */
  lemma ExtractZoned(c: Clock, negative: bool, hours: nat, minutes: nat, zone: Offset, name: string)
    requires c.Valid() && c.date.year < 10000 && hours <= 24 && minutes <= 60
    requires FormatClock(c) + FormatZone(negative, hours, minutes) + " " <= name
    ensures var offset := hours * 3600 + minutes * 60;
      ExtractTime(name, zone) == Some((c.Seconds() - if negative then -offset else offset) * SECOND)
  {
    hide FormatClock, FormatZone, ParseClock, ParseZone, FirstWord;
    var stamp, tail := FormatClock(c), FormatZone(negative, hours, minutes);
    ZonedHasNoSpace(c, negative, hours, minutes);
    FirstWordOf(stamp + tail, name);
    assert (stamp + tail)[..17] == stamp && (stamp + tail)[17..] == tail;
    ParseFormat(c);
    ParseFormatZone(negative, hours, minutes);
  }

  lemma ZonedHasNoSpace(c: Clock, negative: bool, hours: nat, minutes: nat)
    ensures var s := FormatClock(c) + FormatZone(negative, hours, minutes);
      forall i | 0 <= i < |s| :: !IsSpace(s[i])
  {
    var stamp, tail := FormatClock(c), FormatZone(negative, hours, minutes);
    assert forall i | 0 <= i < 17 :: LayoutChar(stamp[i]);
    assert forall i | 0 <= i < 5 :: tail[i] == '+' || LayoutChar(tail[i]);
  }

  /** A name that begins with a time prefix keeps at least the time when it is cut. */
  lemma CutKeepsStamp(g: string -> seq<string>, parts: Parts, uniq: string, stamp: string, p: nat, q: nat)
    requires Segments(g) && BreaksBeforeSpace(g) && Ascii(stamp) && |stamp| == 17 && '0' <= stamp[16] <= '9'
    requires parts.timePrefix == stamp + " " && Bytes(Middle(uniq)) <= 17 && Bytes(parts.suffix) <= 221
    requires BestCut(g(parts.timePrefix + parts.prefix), Middle(uniq), g(parts.suffix), NAME_MAX, p, q)
    ensures q == 0 && stamp <= Joined(g(parts.timePrefix + parts.prefix)[..p])
  {
    var text := parts.timePrefix + parts.prefix;
    var pieces, tail := g(text), g(parts.suffix);
    assert text[17] == ' ' && text[..17] == stamp;
    var k :| 0 <= k <= |pieces| && Joined(pieces[..k]) == stamp;
    AsciiBytes(stamp);
    assert tail[0..] == tail;
    assert CutBytes(pieces, Middle(uniq), tail, k, 0) <= NAME_MAX;
    assert pieces[..p] == pieces[..k] + pieces[k..p];
    JoinedConcat(pieces[..k], pieces[k..p]);
  }

  /**
   * Every candidate with a time prefix, cut or not, tells when it was made. The limit on the suffix is
   * met by all settings in use.
   */
  lemma NumberedKeepsTime(g: string -> seq<string>, t: Time, zone: Offset, parts: Parts, uniq: string, name: string)
    requires Segments(g) && BreaksBeforeSpace(g) && InRange(t, zone)
    requires parts.timePrefix == Stamp(t, zone) + " " && Bytes(Middle(uniq)) <= 17 && Bytes(parts.suffix) <= 221
    requires Numbered(g, parts, uniq, name)
    ensures ExtractTime(name, zone) == Some(FloorSecond(t))
  {
    var stamp, text := Stamp(t, zone), parts.timePrefix + parts.prefix;
    var p: nat, q: nat :|
      BestCut(g(text), Middle(uniq), g(parts.suffix), NAME_MAX, p, q)
        && name == Cut(g(text), Middle(uniq), g(parts.suffix), p, q);
    StampBytes(t, zone);
    CutKeepsStamp(g, parts, uniq, stamp, p, q);
    TailBytes(g(text), p);
    SpaceFollows(stamp, text, Joined(g(text)[..p]), Middle(uniq), Joined(g(parts.suffix)[q..]));
    ExtractStamp(t, zone, name);
  }

  /** Both the time prefix and the middle part put a space behind the time. */
  lemma SpaceFollows(stamp: string, text: string, head: string, middle: string, tail: string)
    requires stamp <= head <= text && stamp + " " <= text && " " <= middle
    ensures stamp + " " <= head + middle + tail
  {
    if |head| == |stamp| {
      assert head == stamp;
    }
  }

  /** The first candidate tells it as well. */
  lemma FirstKeepsTime(t: Time, zone: Offset, name: string)
    requires InRange(t, zone)
    ensures ExtractTime(Stamp(t, zone) + " " + name, zone) == Some(FloorSecond(t))
  {
    StampBytes(t, zone);
    ExtractStamp(t, zone, Stamp(t, zone) + " " + name);
  }

  /** name was made for a file called original by a generator with a time prefix, set up at time t. */
  ghost predicate MadeAt(g: string -> seq<string>, t: Time, zone: Offset, parts: Parts, original: string,
                         name: string)
  {
    && Segments(g) && BreaksBeforeSpace(g) && InRange(t, zone)
    && parts.timePrefix == Stamp(t, zone) + " " && Bytes(parts.suffix) <= 221
    && Candidate(g, parts, original, name)
  }

  /** Every generated name gives away the second in which the generator was set up. */
  lemma MadeAtIsRead(g: string -> seq<string>, t: Time, zone: Offset, parts: Parts, original: string, name: string)
    requires MadeAt(g, t, zone, parts, original, name)
    ensures ExtractTime(name, zone) == Some(FloorSecond(t))
  {
    if name == parts.timePrefix + original {
      FirstKeepsTime(t, zone, original);
    } else {
      var uniq :| Bytes(Middle(uniq)) <= 17 && Numbered(g, parts, uniq, name);
      NumberedKeepsTime(g, t, zone, parts, uniq, name);
    }
  }

  /**
   * The settings of the journal and the archives keep suffixes short enough: by default an extension of at
   * most nine bytes is set apart unless it is the whole name, and in the journal none is.
   */
  lemma SettingsKeepTime(name: string, settings: Settings)
    requires settings == DEFAULT || settings == JOURNAL
    ensures Bytes(Divided(name, settings).1) <= 9
    ensures Divided(name, DEFAULT).1 ==
      if Bytes(Extension(name)) <= 9 && |Extension(name)| < |name| then Extension(name) else []
    ensures Divided(name, JOURNAL).1 == []
  {
  }

  /**
   * New and any number of calls of Next with the settings of the journal and the archives: every name
   * gives away the second in which New was called, and all but the first fit into a directory entry.
   */
  method GenerateNames(name: string, settings: Settings, now: Time, zone: Offset, graphemes: string -> seq<string>,
                       strip: string -> string, randoms: seq<nat>) returns (ok: bool, names: seq<string>)
    requires settings == DEFAULT || settings == JOURNAL
    requires Segments(graphemes) && BreaksBeforeSpace(graphemes) && InRange(now, zone)
    requires forall i | 0 <= i < |randoms| :: randoms[i] < 0x8000_0000
    ensures ok <==> name != []
    ensures |names| == if ok then |randoms| else 0
    ensures forall i | 0 <= i < |names| :: ExtractTime(names[i], zone) == Some(FloorSecond(now))
    ensures 0 < |names| ==> names[0] == Stamp(now, zone) + " " + name
    ensures forall i | 0 < i < |names| :: Bytes(names[i]) <= NAME_MAX
  {
    hide Segments, BreaksBeforeSpace, Numbered, Stamp, ExtractTime, FloorSecond, Bytes, Divided, Uniq;
    names := [];
    var made := New(name, settings, now, zone, graphemes, strip);
    ok := made.Some?;
    if !ok {
      return;
    }
    var g := made.value;
    SettingsKeepTime(name, settings);
    ghost var parts := g.View();
    for k := 0 to |randoms|
      invariant g.Valid() && g.zone == zone && g.graphemes == graphemes && g.View() == parts && fresh(g)
      invariant |names| == k && (k == 0 ==> g.originalName == name) && (0 < k ==> g.originalName == [])
      invariant forall i | 0 <= i < k :: ExtractTime(names[i], zone) == Some(FloorSecond(now))
      invariant 0 < k ==> names[0] == Stamp(now, zone) + " " + name
      invariant forall i | 0 < i < k :: Bytes(names[i]) <= NAME_MAX
    {
      ghost var original, time := g.originalName, g.timeSuffix;
      var next := g.Next(randoms[k]);
      MadeAtIsRead(graphemes, now, zone, parts, original, next);
      if 0 < k {
        NumberedFits(graphemes, parts, Uniq(time, zone, randoms[k]), next);
      }
      names := names + [next];
    }
  }

  /** The name tells the second t in brackets, in the layout 20060102150405. */
  ghost predicate TellsSecond(name: string, t: Time, zone: Offset) {
    exists head, stamp, tail ::
      && name == head + " (" + stamp + ")" + tail && |stamp| == 14
      && ReadCompact(stamp).Some? && ReadCompact(stamp).value.Seconds() == LocalSeconds(t, zone)
  }

  lemma NumberedTells(g: string -> seq<string>, parts: Parts, t: Time, zone: Offset, random: nat, name: string)
    requires Segments(g) && InRange(t, zone) && t != ZERO_TIME
    requires Numbered(g, parts, Uniq(t, zone, random), name)
    ensures TellsSecond(name, t, zone)
  {
    var c := ClockOf(LocalSeconds(t, zone));
    YearInRange(t, zone);
    ClockRoundTrip(LocalSeconds(t, zone));
    CompactIsRead(c);
    var head, tail := NumberedShape(g, parts, FormatCompact(c), name);
  }

  /**
   * New and two calls of Next without time prefix, as for move-into: first the name itself, then one that
   * tells the second in which New was called.
   */
  method FirstTwoNames(name: string, settings: Settings, now: Time, zone: Offset, graphemes: string -> seq<string>,
                       strip: string -> string, random: nat) returns (ok: bool, first: string, second: string)
    requires !settings.timePrefix && Segments(graphemes) && InRange(now, zone) && random < 0x8000_0000
    ensures ok <==> name != []
    ensures ok ==> first == name
    ensures ok && now != ZERO_TIME ==> TellsSecond(second, now, zone)
    ensures ok ==> Bytes(second) <= NAME_MAX
  {
    hide Segments, Numbered, Bytes, Divided, Uniq, TellsSecond;
    var made := New(name, settings, now, zone, graphemes, strip);
    ok, first, second := made.Some?, "", "";
    if !ok {
      return;
    }
    var g := made.value;
    ghost var parts := g.View();
    first := g.Next(random);
    ghost var time := g.timeSuffix;
    second := g.Next(random);
    NumberedFits(graphemes, parts, Uniq(time, zone, random), second);
    if now != ZERO_TIME {
      NumberedTells(graphemes, parts, now, zone, random, second);
    }
  }
}

/** The `file_states` table: column encoding of a row, the JSON text of its sync state, and the search
    for a sync state inside that text. */
module FileStates {
  import opened Model
  import opened Queue

  // ----- JSON text of a sync state (string escapes: section 7 of RFC 8259) -----

  function KindToStr(k: SyncStateKind): string {
    match k
    case Synced => "synced"
    case Pending => "pending"
    case Conflict => "conflict"
    case Error => "error"
    case Uploading => "uploading"
    case Downloading => "downloading"
  }

  function KindFromStr(s: string): Option<SyncStateKind> {
    if s == "synced" then Some(Synced)
    else if s == "pending" then Some(Pending)
    else if s == "conflict" then Some(Conflict)
    else if s == "error" then Some(Error)
    else if s == "uploading" then Some(Uploading)
    else if s == "downloading" then Some(Downloading)
    else None
  }

  const HEX_DIGITS: string := "0123456789abcdef"

  function HexValue(c: char): Option<nat> {
    if '0' <= c <= '9' then Some(c as nat - '0' as nat)
    else if 'a' <= c <= 'f' then Some(c as nat - 'a' as nat + 10)
    else if 'A' <= c <= 'F' then Some(c as nat - 'A' as nat + 10)
    else None
  }

  function EscapeChar(c: char): string {
    if c == '"' then ['\\', '"']
    else if c == '\\' then ['\\', '\\']
    else if c == 8 as char then ['\\', 'b']
    else if c == 12 as char then ['\\', 'f']
    else if c == '\n' then ['\\', 'n']
    else if c == '\r' then ['\\', 'r']
    else if c == '\t' then ['\\', 't']
    else if c as nat < 32 then ['\\', 'u', '0', '0', HEX_DIGITS[c as nat / 16], HEX_DIGITS[c as nat % 16]]
    else [c]
  }

  function Escape(s: string): string {
    if s == [] then [] else EscapeChar(s[0]) + Escape(s[1..])
  }

  /** The character an escape stands for, and the number of characters after the backslash it takes. */
  function ReadEscape(s: string): Option<(char, nat)>
    requires s != []
  {
    match s[0]
    case '"' => Some(('"', 1))
    case '\\' => Some(('\\', 1))
    case '/' => Some(('/', 1))
    case 'b' => Some((8 as char, 1))
    case 'f' => Some((12 as char, 1))
    case 'n' => Some(('\n', 1))
    case 'r' => Some(('\r', 1))
    case 't' => Some(('\t', 1))
    case 'u' =>
      if |s| < 5 then None
      else
        (match (HexValue(s[1]), HexValue(s[2]), HexValue(s[3]), HexValue(s[4]))
         case (Some(a), Some(b), Some(c), Some(d)) =>
           var code := a * 4096 + b * 256 + c * 16 + d;
           if code < 0xD800 then Some((code as char, 5)) else None
         case _ => None)
    case _ => None
  }

  /** Reads a JSON string whose opening quote is already consumed; also returns what follows it. */
  function ReadString(s: string): Option<(string, string)>
    decreases |s|
  {
    if s == [] || s[0] as nat < 32 then None
    else if s[0] == '"' then Some(([], s[1..]))
    else if s[0] != '\\' then
      match ReadString(s[1..])
      case Some((text, rest)) => Some(([s[0]] + text, rest))
      case None => None
    else if |s| == 1 then None
    else
      match ReadEscape(s[1..])
      case None => None
      case Some((c, n)) =>
        if 1 + n > |s| then None
        else
          match ReadString(s[1 + n..])
          case Some((text, rest)) => Some(([c] + text, rest))
          case None => None
  }

  const OPENING: string := "{\"kind\":\""
  const MIDDLE: string := "\",\"message\":"

  function MessageToJson(message: Option<string>): string {
    match message
    case None => "null}"
    case Some(m) => ['"'] + Escape(m) + ['"', '}']
  }

  function SyncStateToJson(s: SyncState): string {
    OPENING + KindToStr(s.kind) + MIDDLE + MessageToJson(s.message)
  }

  /** The text that the column holds for a state without a message. */
  lemma StoredText(kind: SyncStateKind)
    ensures SyncStateToJson(SyncState(kind, None)) == "{\"kind\":\""
      + (match kind
         case Synced => "synced"
         case Pending => "pending"
         case Conflict => "conflict"
         case Error => "error"
         case Uploading => "uploading"
         case Downloading => "downloading")
      + "\",\"message\":null}"
  {
    assert MIDDLE + MessageToJson(None) == "\",\"message\":null}";
    var name := KindToStr(kind);
    assert OPENING + name + MIDDLE + MessageToJson(None) == OPENING + name + (MIDDLE + MessageToJson(None));
  }

  /** Reads the text that `SyncStateToJson` writes. */
  function SyncStateFromJson(text: string): Option<SyncState> {
    if !(OPENING <= text) then None
    else
      match ReadString(text[|OPENING|..])
      case None => None
      case Some((name, rest)) =>
        var tail := ['"'] + rest;
        if !(MIDDLE <= tail) then None
        else
          match (KindFromStr(name), MessageFromJson(tail[|MIDDLE|..]))
          case (Some(kind), Some(message)) => Some(SyncState(kind, message))
          case _ => None
  }

  function MessageFromJson(text: string): Option<Option<string>> {
    if text == "null}" then Some(None)
    else if text == [] || text[0] != '"' then None
    else
      match ReadString(text[1..])
      case Some((m, rest)) => if rest == "}" then Some(Some(m)) else None
      case None => None
  }

  lemma EscapeCharRead(c: char, rest: string)
    requires EscapeChar(c) != [c]
    ensures EscapeChar(c)[0] == '\\' && |EscapeChar(c)| >= 2
    ensures ReadEscape(EscapeChar(c)[1..] + rest) == Some((c, |EscapeChar(c)| - 1))
  {
    var e := EscapeChar(c);
    assert (e[1..] + rest)[0] == e[1];
    if |e| == 6 {
      var s := e[1..] + rest;
      assert s[1] == '0' && s[2] == '0' && s[3] == e[4] && s[4] == e[5];
      assert c as nat == c as nat / 16 * 16 + c as nat % 16;
    }
  }

  lemma ReadPlain(s: string, text: string, rest: string)
    requires s != [] && s[0] as nat >= 32 && s[0] != '"' && s[0] != '\\'
    requires ReadString(s[1..]) == Some((text, rest))
    ensures ReadString(s) == Some(([s[0]] + text, rest))
  {
  }

  lemma ReadEscaped(s: string, c: char, n: nat, text: string, rest: string)
    requires 1 + n <= |s| && n > 0 && s[0] == '\\' && ReadEscape(s[1..]) == Some((c, n))
    requires ReadString(s[1 + n..]) == Some((text, rest))
    ensures ReadString(s) == Some(([c] + text, rest))
  {
  }

  /** Reading one more character in front of a text that is read already. */
  lemma ReadOneMore(c: char, tail: string, text: string, rest: string)
    requires ReadString(tail) == Some((text, rest))
    ensures ReadString(EscapeChar(c) + tail) == Some(([c] + text, rest))
  {
    hide ReadString, ReadEscape;
    var e := EscapeChar(c);
    var s := e + tail;
    if e == [c] {
      assert s[1..] == tail;
      ReadPlain(s, text, rest);
    } else {
      EscapeCharRead(c, tail);
      assert s[1..] == e[1..] + tail && s[|e|..] == tail;
      ReadEscaped(s, c, |e| - 1, text, rest);
    }
  }

  lemma {:induction false} ReadUndoesEscape(m: string, rest: string)
    ensures ReadString(Escape(m) + ['"'] + rest) == Some((m, rest))
  {
    hide ReadEscape, EscapeChar;
    if m == [] {
      assert (Escape(m) + ['"'] + rest)[1..] == rest;
    } else {
      var tail := Escape(m[1..]) + ['"'] + rest;
      assert Escape(m) + ['"'] + rest == EscapeChar(m[0]) + tail;
      ReadUndoesEscape(m[1..], rest);
      ReadOneMore(m[0], tail, m[1..], rest);
      assert [m[0]] + m[1..] == m;
    }
  }

  lemma KindIsPlain(k: SyncStateKind)
    ensures forall i :: 0 <= i < |KindToStr(k)| ==> 'a' <= KindToStr(k)[i] <= 'z'
    ensures KindFromStr(KindToStr(k)) == Some(k)
  {
  }

  lemma {:induction false} PlainIsUnescaped(s: string)
    requires forall i :: 0 <= i < |s| ==> 'a' <= s[i] <= 'z'
    ensures Escape(s) == s
  {
    if s != [] { PlainIsUnescaped(s[1..]); }
  }

  lemma MessageRoundTrip(message: Option<string>)
    ensures MessageFromJson(MessageToJson(message)) == Some(message)
  {
    hide ReadString, Escape;
    if message.Some? {
      var text := MessageToJson(message);
      assert text[0] == '"' && text[1..] == Escape(message.value) + ['"'] + "}";
      ReadUndoesEscape(message.value, "}");
    }
  }

  lemma Strip(prefix: string, rest: string)
    ensures prefix <= prefix + rest && (prefix + rest)[|prefix|..] == rest
  {
  }

  lemma DecodeUndoesEncode(s: SyncState)
    ensures SyncStateFromJson(SyncStateToJson(s)) == Some(s)
  {
    hide ReadString, MessageFromJson, Escape, KindToStr, KindFromStr, MessageToJson;
    var kind, message := KindToStr(s.kind), MessageToJson(s.message);
    var rest := MIDDLE[1..] + message;
    KindIsPlain(s.kind);
    PlainIsUnescaped(kind);
    ReadUndoesEscape(kind, rest);
    MessageRoundTrip(s.message);
    assert ['"'] + rest == MIDDLE + message;
    var tail := Escape(kind) + ['"'] + rest;
    assert SyncStateToJson(s) == OPENING + tail;
    Strip(OPENING, tail);
    Strip(MIDDLE, message);
  }

  // ----- the LIKE operator -----

  function Lower(c: char): char {
    if 'A' <= c <= 'Z' then (c as nat + 32) as char else c
  }

  /** SQLite's LIKE: `%` stands for any text, `_` for one character, ASCII letters match in either case. */
  predicate Like(pattern: string, text: string)
    decreases |pattern| + |text|
  {
    if pattern == [] then text == []
    else if pattern[0] == '%' then Like(pattern[1..], text) || (text != [] && Like(pattern, text[1..]))
    else text != [] && (pattern[0] == '_' || Lower(pattern[0]) == Lower(text[0])) && Like(pattern[1..], text[1..])
  }

  predicate MatchesAt(literal: string, text: string, i: nat) {
    && i + |literal| <= |text|
    && forall j :: 0 <= j < |literal| ==> Lower(literal[j]) == Lower(text[i + j])
  }

  predicate NoWildcard(s: string) { '%' !in s && '_' !in s }

  lemma {:induction false} PercentMatchesAll(text: string)
    ensures Like("%", text)
  {
    if text != [] { PercentMatchesAll(text[1..]); }
  }

  lemma {:induction false} LikePrefix(literal: string, text: string)
    requires NoWildcard(literal)
    ensures Like(literal + "%", text) <==> MatchesAt(literal, text, 0)
  {
    if literal == [] {
      assert literal + "%" == "%";
      PercentMatchesAll(text);
    } else {
      var rest := literal[1..];
      assert (literal + "%")[1..] == rest + "%";
      if text != [] {
        LikePrefix(rest, text[1..]);
        if MatchesAt(rest, text[1..], 0) && Lower(literal[0]) == Lower(text[0]) {
          forall j | 0 <= j < |literal| ensures Lower(literal[j]) == Lower(text[j]) {
            if j > 0 { assert literal[j] == rest[j - 1] && text[j] == text[1..][j - 1]; }
          }
        }
        if MatchesAt(literal, text, 0) {
          forall j | 0 <= j < |rest| ensures Lower(rest[j]) == Lower(text[1..][j]) {
            assert Lower(literal[j + 1]) == Lower(text[0 + (j + 1)]);
          }
        }
      }
    }
  }

  lemma {:induction false} LikeContains(literal: string, text: string)
    requires NoWildcard(literal)
    ensures Like("%" + literal + "%", text) <==> exists i: nat :: MatchesAt(literal, text, i)
    decreases |text|
  {
    var pattern := "%" + literal + "%";
    assert pattern[1..] == literal + "%";
    LikePrefix(literal, text);
    if text != [] {
      LikeContains(literal, text[1..]);
      if exists i: nat :: MatchesAt(literal, text[1..], i) {
        var i: nat :| MatchesAt(literal, text[1..], i);
        assert MatchesAt(literal, text, i + 1) by {
          forall j | 0 <= j < |literal| ensures Lower(literal[j]) == Lower(text[i + 1 + j]) {
            assert text[1..][i + j] == text[i + 1 + j];
          }
        }
      }
      if exists i: nat :: i > 0 && MatchesAt(literal, text, i) {
        var i: nat :| i > 0 && MatchesAt(literal, text, i);
        assert MatchesAt(literal, text[1..], i - 1) by {
          forall j | 0 <= j < |literal| ensures Lower(literal[j]) == Lower(text[1..][i - 1 + j]) {
            assert Lower(literal[j]) == Lower(text[i + j]);
          }
        }
      }
    }
  }

  // ----- searching the text for a kind -----

  function KindLiteral(k: SyncStateKind): string { "\"kind\":\"" + KindToStr(k) + "\"" }

  /** In escaped text a quote always follows a backslash. */
  lemma {:induction false} QuotesAreEscaped(m: string)
    ensures forall j :: 0 <= j < |Escape(m)| && Escape(m)[j] == '"' ==> j > 0 && Escape(m)[j - 1] == '\\'
  {
    if m != [] {
      QuotesAreEscaped(m[1..]);
      var e, tail := EscapeChar(m[0]), Escape(m[1..]);
      forall j | 0 <= j < |Escape(m)| && Escape(m)[j] == '"' ensures j > 0 && Escape(m)[j - 1] == '\\' {
        if j >= |e| { assert tail[j - |e|] == '"'; }
      }
    }
  }

  /** A `d`, a quote and a colon in a row at `q`. */
  predicate TripleAt(text: string, q: nat) {
    q + 2 < |text| && Lower(text[q]) == 'd' && text[q + 1] == '"' && text[q + 2] == ':'
  }

  lemma NoTripleInMessage(before: string, message: Option<string>, q: nat)
    requires before != [] && before[|before| - 1] == ':' && |before| <= q + 2
    ensures !TripleAt(before + MessageToJson(message), q)
  {
    var json := MessageToJson(message);
    var text := before + json;
    var at := q + 1 - |before|;
    if q + 2 < |text| {
      assert at >= 0 ==> text[q + 1] == json[at];
      assert at >= 1 ==> text[q] == json[at - 1];
      assert text[q + 2] == json[at + 1];
      if message.Some? {
        var e := Escape(message.value);
        QuotesAreEscaped(message.value);
        assert 0 < at <= |e| ==> json[at] == e[at - 1];
        assert 1 < at <= |e| ==> json[at - 1] == e[at - 2];
      }
    }
  }

  lemma OneTripleInHead(kind: string, q: nat)
    requires forall i :: 0 <= i < |kind| ==> 'a' <= kind[i] <= 'z'
    ensures TripleAt(OPENING + kind + MIDDLE, q) ==> q == 5
  {
    var text := OPENING + kind + MIDDLE;
    var at := q + 1 - |OPENING| - |kind|;
    if q + 2 < |text| {
      if q + 1 < |OPENING| {
        assert text[q + 1] == OPENING[q + 1] && text[q] == OPENING[q];
        assert q == 0 || q == 1 || q == 2 || q == 3 || q == 4 || q == 5 || q == 6 || q == 7;
      } else if at < 0 {
        assert text[q + 1] == kind[q + 1 - |OPENING|];
      } else {
        assert text[q + 1] == MIDDLE[at] && text[q + 2] == MIDDLE[at + 1];
        assert at > 0 ==> text[q] == MIDDLE[at - 1];
        assert MIDDLE[at] == '"' ==> at == 0 || at == 2 || at == 10;
      }
    }
  }

  lemma MatchIsAtTheKind(s: SyncState, k: SyncStateKind, i: nat)
    requires MatchesAt(KindLiteral(k), SyncStateToJson(s), i)
    ensures i == 1
  {
    var text, literal := SyncStateToJson(s), KindLiteral(k);
    var head := OPENING + KindToStr(s.kind) + MIDDLE;
    assert text == head + MessageToJson(s.message);
    assert Lower(literal[4]) == Lower(text[i + 4]) && Lower(literal[5]) == Lower(text[i + 5])
        && Lower(literal[6]) == Lower(text[i + 6]);
    assert TripleAt(text, i + 4);
    KindIsPlain(s.kind);
    if i + 4 + 2 < |head| {
      assert TripleAt(head, i + 4);
    }
    if |head| <= i + 4 + 2 { NoTripleInMessage(head, s.message, i + 4); }
    OneTripleInHead(KindToStr(s.kind), i + 4);
  }

  /** Two words, each closed by a quote, that agree up to the case of letters are equal. */
  lemma SameWord(wanted: string, stored: string, rest: string)
    requires forall i :: 0 <= i < |wanted| ==> 'a' <= wanted[i] <= 'z'
    requires forall i :: 0 <= i < |stored| ==> 'a' <= stored[i] <= 'z'
    requires MatchesAt(wanted + ['"'], stored + ['"'] + rest, 0)
    ensures wanted == stored
  {
    var w, s := wanted + ['"'], stored + ['"'] + rest;
    assert forall j :: 0 <= j < |w| ==> Lower(w[j]) == Lower(s[0 + j]);
    assert w[|wanted|] == '"' && s[|stored|] == '"';
    assert Lower(w[|wanted|]) == Lower(s[|wanted|]);
    assert |stored| <= |wanted| ==> Lower(w[|stored|]) == Lower(s[|stored|]);
    assert forall j :: 0 <= j < |wanted| && j < |stored| ==> w[j] == wanted[j] && s[j] == stored[j];
  }

  lemma MatchesSuffix(prefix: string, literal: string, text: string)
    ensures MatchesAt(prefix + literal, ['{'] + prefix + text, 1) <==> MatchesAt(literal, text, 0)
  {
    var p, t := prefix + literal, ['{'] + prefix + text;
    assert forall j :: 0 <= j < |prefix| ==> p[j] == t[1 + j];
    assert forall j :: 0 <= j < |literal| ==> p[|prefix| + j] == literal[j];
    assert forall j :: 0 <= j < |text| ==> t[1 + (|prefix| + j)] == text[j];
    if MatchesAt(p, t, 1) {
      forall j | 0 <= j < |literal| ensures Lower(literal[j]) == Lower(text[0 + j]) {
        assert Lower(p[|prefix| + j]) == Lower(t[1 + (|prefix| + j)]);
      }
    }
    if MatchesAt(literal, text, 0) {
      forall j | 0 <= j < |p| ensures Lower(p[j]) == Lower(t[1 + j]) {
        if j >= |prefix| { assert Lower(literal[j - |prefix|]) == Lower(text[0 + (j - |prefix|)]); }
      }
    }
  }

  lemma PrefixMatches(literal: string, text: string)
    requires literal <= text
    ensures MatchesAt(literal, text, 0)
  {
  }

  lemma KindAtOne(s: SyncState, k: SyncStateKind)
    ensures MatchesAt(KindLiteral(k), SyncStateToJson(s), 1) <==> s.kind == k
  {
    hide MatchesAt, MessageToJson, KindToStr, KindFromStr;
    var stored, wanted := KindToStr(s.kind), KindToStr(k);
    KindIsPlain(s.kind);
    KindIsPlain(k);
    var rest := MIDDLE[1..] + MessageToJson(s.message);
    var tail := stored + ['"'] + rest;
    assert KindLiteral(k) == OPENING[1..] + (wanted + ['"']);
    assert SyncStateToJson(s) == ['{'] + OPENING[1..] + tail;
    MatchesSuffix(OPENING[1..], wanted + ['"'], tail);
    if MatchesAt(wanted + ['"'], tail, 0) {
      SameWord(wanted, stored, rest);
    }
    if s.kind == k {
      PrefixMatches(wanted + ['"'], tail);
    }
  }

  /** Whatever the message says, the text search for a kind answers as a look at the decoded state would. */
  lemma SearchFindsTheKind(s: SyncState, k: SyncStateKind)
    ensures Like("%" + KindLiteral(k) + "%", SyncStateToJson(s)) <==> s.kind == k
  {
    hide SyncStateToJson, MatchesAt, Like;
    var text, literal := SyncStateToJson(s), KindLiteral(k);
    assert NoWildcard(literal);
    LikeContains(literal, text);
    KindAtOne(s, k);
    if exists i: nat :: MatchesAt(literal, text, i) {
      var i: nat :| MatchesAt(literal, text, i);
      MatchIsAtTheKind(s, k, i);
    }
  }

  // ----- columns -----

  const NANOS: int := 1_000_000_000
  const U32_SIZE: int := 0x1_0000_0000

  /** Division that truncates toward zero, and its remainder. */
  function TruncDiv(a: int, b: int): int
    requires b > 0
  {
    if a >= 0 then a / b else -((-a) / b)
  }

  function TruncRem(a: int, b: int): int
    requires b > 0
  {
    a - TruncDiv(a, b) * b
  }

  /** `timestamp_millis`: milliseconds, rounded down. */
  function Millis(t: Time): int { t / 1_000_000 }

  function FromTimestamp(secs: int, nanos: int): Option<Time> {
    if 0 <= nanos < NANOS then Some(secs * NANOS + nanos) else None
  }

  /** The remainder is negative for a moment before 1970, and the cast to `u32` wraps it around. */
  function MillisToTime(ms: int): Option<Time> {
    FromTimestamp(TruncDiv(ms, 1000), (TruncRem(ms, 1000) * 1_000_000) % U32_SIZE)
  }

  /** A time as it comes back from the table. */
  function StoredTime(t: Option<Time>): Option<Time> {
    match t
    case None => None
    case Some(v) => MillisToTime(Millis(v))
  }

  /** A time is lost exactly when it lies before 1970 inside a second; otherwise it is cut to the
      millisecond, so it comes back unchanged exactly when it is a whole millisecond. */
  lemma TimeSurvives(t: Time)
    ensures StoredTime(Some(t)) == None <==> t < 0 && Millis(t) % 1000 != 0
    ensures StoredTime(Some(t)).Some? ==> StoredTime(Some(t)).value == Millis(t) * 1_000_000
    ensures StoredTime(Some(t)) == Some(t) <==> t % 1_000_000 == 0 && (t >= 0 || t % NANOS == 0)
  {
    var ms := Millis(t);
    if ms >= 0 {
      assert TruncRem(ms, 1000) == ms % 1000;
      assert ms % 1000 * 1_000_000 % U32_SIZE == ms % 1000 * 1_000_000;
    } else {
      var r := TruncRem(ms, 1000);
      assert -1000 < r <= 0;
      if r == 0 {
        assert ms % 1000 == 0;
      } else {
        assert (r * 1_000_000) % U32_SIZE == r * 1_000_000 + U32_SIZE;
        assert ms % 1000 != 0;
      }
    }
  }

  /** `last_synced_at` is kept in whole seconds. */
  function StoredSeconds(t: Option<Time>): Option<Time> {
    match t
    case None => None
    case Some(v) => FromTimestamp(v / NANOS, 0)
  }

  /** A sync time comes back cut to the whole second, and is never lost. */
  lemma SecondsSurvive(t: Time)
    ensures StoredSeconds(Some(t)) == Some(t / NANOS * NANOS)
  {
  }

  datatype Row = Row(
    id: string,
    relativePath: string,
    driveFileId: Option<string>,
    driveMd5: Option<Md5>,
    driveModified: Option<int>,
    localMd5: Option<Md5>,
    localModified: Option<int>,
    syncState: string,
    lastSyncedAt: Option<int>)

  function MillisColumn(t: Option<Time>): Option<int> {
    match t
    case None => None
    case Some(v) => Some(Millis(v))
  }

  function TimeOfColumn(ms: Option<int>): Option<Time> {
    match ms
    case None => None
    case Some(v) => MillisToTime(v)
  }

  function RowOf(s: FileState): Row {
    Row(s.id, s.relativePath, s.driveFileId, s.driveMd5, MillisColumn(s.driveModified), s.localMd5,
        MillisColumn(s.localModified), SyncStateToJson(s.syncState),
        match s.lastSyncedAt case None => None case Some(v) => Some(v / NANOS))
  }

  function RowToFileState(r: Row): Option<FileState> {
    match SyncStateFromJson(r.syncState)
    case None => None
    case Some(state) =>
      Some(FileState(r.id, r.relativePath, r.driveFileId, r.driveMd5, TimeOfColumn(r.driveModified), r.localMd5,
                     TimeOfColumn(r.localModified), state,
                     match r.lastSyncedAt case None => None case Some(v) => FromTimestamp(v, 0)))
  }

  /** A file state as it comes back from the table. */
  function Stored(s: FileState): FileState {
    s.(driveModified := StoredTime(s.driveModified),
       localModified := StoredTime(s.localModified),
       lastSyncedAt := StoredSeconds(s.lastSyncedAt))
  }

  lemma {:induction false} RowRoundTrip(s: FileState)
    ensures RowToFileState(RowOf(s)) == Some(Stored(s))
  {
    DecodeUndoesEncode(s.syncState);
  }

  // ----- the rows of one sync folder -----

  /** One row per path, every row readable, ids unique. */
  ghost predicate RowsValid(rows: map<string, Row>) {
    && (forall p :: p in rows ==> rows[p].relativePath == p && RowToFileState(rows[p]).Some?)
    && (forall p, q :: p in rows && q in rows && rows[p].id == rows[q].id ==> p == q)
  }

  ghost function StatesOf(rows: map<string, Row>): map<string, FileState>
    requires RowsValid(rows)
  {
    map p | p in rows :: RowToFileState(rows[p]).value
  }

  lemma RowKeepsId(r: Row)
    requires RowToFileState(r).Some?
    ensures RowToFileState(r).value.id == r.id && RowToFileState(r).value.relativePath == r.relativePath
  {
  }

  /** Writing one row over the row of the same path. */
  lemma RowsAfterUpsert(rows: map<string, Row>, r: Row)
    requires RowsValid(rows) && RowToFileState(r).Some?
    requires forall p :: p in rows && p != r.relativePath ==> rows[p].id != r.id
    ensures RowsValid(rows[r.relativePath := r])
    ensures StatesOf(rows[r.relativePath := r]) == StatesOf(rows)[r.relativePath := RowToFileState(r).value]
  {
    var after := rows[r.relativePath := r];
    forall p, q | p in after && q in after && after[p].id == after[q].id ensures p == q {
      assert p != r.relativePath ==> after[p] == rows[p];
      assert q != r.relativePath ==> after[q] == rows[q];
    }
    assert RowsValid(after);
    var states, wanted := StatesOf(after), StatesOf(rows)[r.relativePath := RowToFileState(r).value];
    assert states.Keys == wanted.Keys;
    forall p | p in states ensures states[p] == wanted[p] {
      assert p != r.relativePath ==> after[p] == rows[p];
    }
  }

  class FileStateRepository {
    var rows: map<string, Row>

    ghost predicate Valid()
      reads this
    {
      RowsValid(rows)
    }

    ghost function States(): map<string, FileState>
      reads this
      requires Valid()
    {
      StatesOf(rows)
    }

    constructor ()
      ensures Valid() && States() == map[]
    {
      rows := map[];
    }

    /** Replaces the row of the same path; fails when another path already owns the id. */
    method Upsert(s: FileState) returns (r: Outcome)
      requires Valid()
      modifies this
      ensures Valid()
      ensures r == Err <==> exists p :: p in old(States()) && p != s.relativePath && old(States())[p].id == s.id
      ensures States() == if r == Ok then old(States())[s.relativePath := Stored(s)] else old(States())
    {
      forall p | p in rows ensures States()[p].id == rows[p].id {
        RowKeepsId(rows[p]);
      }
      if exists p | p in rows :: p != s.relativePath && rows[p].id == s.id {
        return Err;
      }
      var row := RowOf(s);
      RowRoundTrip(s);
      RowsAfterUpsert(rows, row);
      rows := rows[s.relativePath := row];
      r := Ok;
    }

    method GetByPath(path: string) returns (r: Option<FileState>)
      requires Valid()
      ensures r == if path in States() then Some(States()[path]) else None
    {
      r := if path in rows then RowToFileState(rows[path]) else None;
    }

    method Delete(id: string)
      requires Valid()
      modifies this
      ensures Valid()
      ensures States() == map p | p in old(States()) && old(States())[p].id != id :: old(States())[p]
    {
      forall p | p in rows ensures States()[p].id == rows[p].id {
        RowKeepsId(rows[p]);
      }
      rows := map p | p in rows && rows[p].id != id :: rows[p];
    }

    /** The paths whose stored text matches the LIKE pattern for the kind are exactly those whose decoded
        state is of that kind, when the text was written by `SyncStateToJson`. */
    method MatchingPaths(kind: SyncStateKind) returns (found: set<string>)
      requires Valid()
      requires forall p :: p in rows ==> exists s :: rows[p].syncState == SyncStateToJson(s)
      ensures found == set p | p in States() && States()[p].syncState.kind == kind
    {
      found := set p | p in rows && Like("%" + KindLiteral(kind) + "%", rows[p].syncState);
      forall p | p in rows ensures p in found <==> States()[p].syncState.kind == kind {
        var s :| rows[p].syncState == SyncStateToJson(s);
        DecodeUndoesEncode(s);
        SearchFindsTheKind(s, kind);
      }
    }

    /** The states of the kind, ordered by path. */
    method ListByState(kind: SyncStateKind) returns (found: seq<FileState>)
      requires Valid()
      requires forall p :: p in rows ==> exists s :: rows[p].syncState == SyncStateToJson(s)
      ensures forall p :: (exists i :: 0 <= i < |found| && found[i].relativePath == p)
                          <==> p in States() && States()[p].syncState.kind == kind
      ensures forall i :: 0 <= i < |found| ==>
                found[i].relativePath in States() && found[i] == States()[found[i].relativePath]
      ensures forall i, j :: 0 <= i < j < |found| ==>
                StringLe(found[i].relativePath, found[j].relativePath) && found[i].relativePath != found[j].relativePath
    {
      hide StringLe, RowToFileState, RowsValid, StatesOf, SyncStateToJson;
      var matching := MatchingPaths(kind);
      var paths := OrderedPaths(matching);
      found := DecodeAll(paths);
      SamePaths(paths, found);
      forall p ensures (exists i :: 0 <= i < |found| && found[i].relativePath == p)
                       <==> p in States() && States()[p].syncState.kind == kind
      {
        assert p in paths <==> p in matching;
      }
    }

    method DecodeAll(paths: seq<string>) returns (found: seq<FileState>)
      requires Valid() && forall p :: p in paths ==> p in States()
      ensures |found| == |paths|
      ensures forall i :: 0 <= i < |paths| ==>
                paths[i] in States() && found[i] == States()[paths[i]] && found[i].relativePath == paths[i]
    {
      hide RowToFileState;
      found := [];
      for n := 0 to |paths|
        invariant |found| == n
        invariant forall i :: 0 <= i < n ==>
          paths[i] in States() && found[i] == States()[paths[i]] && found[i].relativePath == paths[i]
      {
        assert paths[n] in paths;
        RowKeepsId(rows[paths[n]]);
        found := found + [RowToFileState(rows[paths[n]]).value];
      }
    }
  }

  // ----- ORDER BY relative_path -----

  ghost predicate Ascending(paths: seq<string>) {
    forall i, j :: 0 <= i < j < |paths| ==> StringLe(paths[i], paths[j]) && paths[i] != paths[j]
  }

  function InsertPath(p: string, paths: seq<string>): seq<string> {
    if paths == [] || StringLe(p, paths[0]) then [p] + paths else [paths[0]] + InsertPath(p, paths[1..])
  }

  lemma {:induction false} InsertAscends(p: string, paths: seq<string>)
    requires Ascending(paths) && p !in paths
    ensures Ascending(InsertPath(p, paths)) && forall q :: q in InsertPath(p, paths) <==> q == p || q in paths
  {
    hide StringLe;
    if paths != [] {
      StringLeTotal(p, paths[0]);
      if StringLe(p, paths[0]) {
        forall j | 0 < j < |paths| ensures StringLe(p, paths[j]) { StringLeTransitive(p, paths[0], paths[j]); }
      } else {
        InsertAscends(p, paths[1..]);
        assert paths == [paths[0]] + paths[1..];
        var tail := InsertPath(p, paths[1..]);
        forall j | 0 <= j < |tail| ensures StringLe(paths[0], tail[j]) && paths[0] != tail[j] {
          assert tail[j] in tail;
        }
      }
    }
  }

  lemma SamePaths(paths: seq<string>, found: seq<FileState>)
    requires |found| == |paths| && forall i :: 0 <= i < |paths| ==> found[i].relativePath == paths[i]
    ensures forall p :: (exists i :: 0 <= i < |found| && found[i].relativePath == p) <==> p in paths
  {
    forall p | p in paths ensures exists i :: 0 <= i < |found| && found[i].relativePath == p {
      var i :| 0 <= i < |paths| && paths[i] == p;
      assert found[i].relativePath == p;
    }
  }

  method OrderedPaths(paths: set<string>) returns (ordered: seq<string>)
    ensures Ascending(ordered) && forall p :: p in ordered <==> p in paths
  {
    ordered := [];
    var left := paths;
    while left != {}
      invariant left <= paths && Ascending(ordered)
      invariant forall p :: p in ordered <==> p in paths && p !in left
    {
      var p :| p in left;
      InsertAscends(p, ordered);
      ordered := InsertPath(p, ordered);
      left := left - {p};
    }
  }
}

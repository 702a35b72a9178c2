/**
 * The control lines of the SCP protocol: the printers the source side uses
 * and the field parsers the sink side uses, proved inverse to each other.
 */
module ScpText {
  import opened Bytes

  const MSG_SZ := 1024            // DEFAULT_SCP_MSG_SZ
  const MODE_OCTET_LEN := 4       // SCP_MODE_OCTET_LEN
  const MODE_RANGE := 512         // values left by WOLFSSH_MODE_MASK, 0777
  const BUFFER_SZ := 32768        // DEFAULT_SCP_BUFFER_SZ
  const PATH_SZ := 1024           // DEFAULT_SCP_FILE_NAME_SZ
  const MAX_WORD32 := 0xFFFF_FFFF
  const MAX_WORD64 := 0xFFFF_FFFF_FFFF_FFFF

  const NUL: byte := 0
  const NEWLINE: byte := 10
  const SPACE: byte := 32
  const DOT: byte := 46
  const SLASH: byte := 47
  const ZERO: byte := 48
  const LETTER_C: byte := 67
  const LETTER_D: byte := 68
  const LETTER_E: byte := 69
  const LETTER_T: byte := 84
  const BACKSLASH: byte := 92

  type Path = seq<byte>

  predicate IsSeparator(b: byte) {
    b == SLASH || b == BACKSLASH
  }

  datatype TextError = BadArgument | BadMessage | BadTimestamp

  /** One parsed control line. */
  datatype Message =
    | FileMsg(mode: nat, size: nat, name: seq<byte>)
    | DirMsg(mode: nat, size: nat, name: seq<byte>)
    | EndDirMsg
    | TimeMsg(mtime: nat, atime: nat)

  // ------------------------------------------------------------- decimals

  predicate IsDigit(b: byte) {
    ZERO <= b <= 57
  }

  predicate AllDigits(s: seq<byte>) {
    forall i :: 0 <= i < |s| ==> IsDigit(s[i])
  }

  /** The number a run of digits denotes. */
  function Value(s: seq<byte>): nat
    requires AllDigits(s)
  {
    if s == [] then 0 else Value(s[..|s| - 1]) * 10 + (s[|s| - 1] - ZERO)
  }

  /** What printf's %u and %llu produce. */
  function Decimal(n: nat): (s: seq<byte>)
    ensures s != [] && AllDigits(s)
  {
    if n < 10 then [ZERO + n] else Decimal(n / 10) + [ZERO + n % 10]
  }

  lemma {:induction false} ValueOfDecimal(n: nat)
    ensures Value(Decimal(n)) == n
  {
    if n < 10 {
      assert Decimal(n)[..0] == [];
    } else {
      ValueOfDecimal(n / 10);
      assert Decimal(n)[..|Decimal(n)| - 1] == Decimal(n / 10);
    }
  }

  function Pow10(k: nat): nat {
    if k == 0 then 1 else 10 * Pow10(k - 1)
  }

  lemma Pow10Of20()
    ensures Pow10(20) == 100_000_000_000_000_000_000
  {
    assert Pow10(2) == 100 && Pow10(4) == 10_000 && Pow10(6) == 1_000_000;
    assert Pow10(8) == 100_000_000 && Pow10(10) == 10_000_000_000;
    assert Pow10(12) == 1_000_000_000_000 && Pow10(14) == 100_000_000_000_000;
    assert Pow10(16) == 10_000_000_000_000_000 && Pow10(18) == 1_000_000_000_000_000_000;
  }

  lemma {:induction false} DecimalLength(n: nat, k: nat)
    requires 1 <= k && n < Pow10(k)
    ensures |Decimal(n)| <= k
  {
    if n >= 10 {
      DecimalLength(n / 10, k - 1);
    }
  }

  /** Appending a digit only ever grows the number. */
  lemma {:induction false} ValueMonotone(s: seq<byte>, i: nat)
    requires AllDigits(s) && i <= |s|
    ensures Value(s[..i]) <= Value(s)
    decreases |s| - i
  {
    if i < |s| {
      assert s[..i + 1][..i] == s[..i];
      ValueMonotone(s, i + 1);
    } else {
      assert s[..i] == s;
    }
  }

  /** A field is accepted exactly when it is a nonempty run of digits whose
      number does not pass the bound. */
  function ParseUInt(s: seq<byte>, max: nat): (r: Result<nat, TextError>)
  {
    if s != [] && AllDigits(s) && Value(s) <= max then Ok(Value(s)) else Err(BadMessage)
  }

  /** The digit loop. Its overflow test rejects a field exactly when the number
      is over max, and no intermediate value passes max. */
  method ScpParseUInt64(str: seq<byte>, max: nat) returns (r: Result<nat, TextError>)
    ensures r == ParseUInt(str, max)
  {
    if |str| == 0 {
      return Err(BadMessage);
    }
    var val := 0;
    for i := 0 to |str|
      invariant AllDigits(str[..i]) && val == Value(str[..i]) <= max
    {
      if str[i] < ZERO || str[i] > 57 {
        return Err(BadMessage);
      }
      var d := (str[i] - ZERO) as int;
      assert str[..i + 1][..i] == str[..i];
      if d > max || (var room: nat := max - d; val > room / 10) {
        if AllDigits(str) {
          ValueMonotone(str, i + 1);
        }
        return Err(BadMessage);
      }
      val := val * 10 + d;
    }
    assert str[..|str|] == str;
    return Ok(val);
  }

  // --------------------------------------------------------------- octal

  predicate IsOctal(b: byte) {
    ZERO <= b <= 55
  }

  predicate AllOctal(s: seq<byte>) {
    forall i :: 0 <= i < |s| ==> IsOctal(s[i])
  }

  function OctalValue(s: seq<byte>): nat
    requires AllOctal(s)
  {
    if s == [] then 0 else OctalValue(s[..|s| - 1]) * 8 + (s[|s| - 1] - ZERO)
  }

  /** What printf's %04o produces for a masked mode. */
  function Octal4(m: nat): (s: seq<byte>)
    requires m < MODE_RANGE
    ensures |s| == MODE_OCTET_LEN && AllOctal(s)
  {
    [ZERO, ZERO + m / 64, ZERO + m / 8 % 8, ZERO + m % 8]
  }

  lemma OctalRoundTrip(m: nat)
    requires m < MODE_RANGE
    ensures OctalValue(Octal4(m)) == m
  {
    var s := Octal4(m);
    assert s[..3][..2] == s[..2] && s[..2][..1] == s[..1] && s[..1][..0] == [];
    assert OctalValue(s[..1]) == 0;
    assert OctalValue(s[..2]) == m / 64;
    assert OctalValue(s[..3]) == m / 64 * 8 + m / 8 % 8 == m / 8;
    assert s[..4] == s;
  }

  // ------------------------------------------------------------- scanning

  /** The first position at or after idx holding b, or the buffer's end. */
  function Scan(buf: seq<byte>, idx: nat, b: byte): (k: nat)
    requires idx <= |buf|
    ensures idx <= k <= |buf|
    ensures forall i :: idx <= i < k ==> buf[i] != b
    ensures k < |buf| ==> buf[k] == b
    decreases |buf| - idx
  {
    if idx == |buf| || buf[idx] == b then idx else Scan(buf, idx + 1, b)
  }

  /** Scanning stops at the first occurrence. */
  lemma ScanAt(buf: seq<byte>, idx: nat, b: byte, k: nat)
    requires idx <= k < |buf| && buf[k] == b
    requires forall i :: idx <= i < k ==> buf[i] != b
    ensures Scan(buf, idx, b) == k
  {
  }

  method FindSpaceInString(buf: seq<byte>, start: nat) returns (r: Option<nat>)
    requires start <= |buf|
    ensures r == (var k := Scan(buf, start, SPACE); if k < |buf| then Some(k) else None)
  {
    var idx := start;
    while idx < |buf|
      invariant start <= idx <= |buf|
      invariant forall i :: start <= i < idx ==> buf[i] != SPACE
    {
      if buf[idx] == SPACE {
        ScanAt(buf, start, SPACE, idx);
        return Some(idx);
      }
      idx := idx + 1;
    }
    var k := Scan(buf, start, SPACE);
    return None;
  }

  // -------------------------------------------------------------- parsing

  /** A received line: the newline has been replaced by a terminator. */
  predicate Terminated(buf: seq<byte>) {
    |buf| >= 1 && buf[|buf| - 1] == NUL
  }

  /** A name the sink lets through: one path component and not a dot name. */
  predicate NameAccepted(name: seq<byte>) {
    && name != [] && name != [DOT] && name != [DOT, DOT]
    && (forall i :: 0 <= i < |name| ==> name[i] != SLASH && name[i] != BACKSLASH)
  }

  /** What separators of either kind leave of a path. */
  function Components(path: seq<byte>): (r: seq<seq<byte>>)
    ensures r != []
  {
    if path == [] then [[]]
    else if IsSeparator(path[0]) then [[]] + Components(path[1..])
    else
      var rest := Components(path[1..]);
      [[path[0]] + rest[0]] + rest[1..]
  }

  /** The names let through are the single components that are names. */
  lemma NameIsComponent(name: seq<byte>)
    ensures NameAccepted(name) <==>
            Components(name) == [name] && name != [] && name != [DOT] && name != [DOT, DOT]
  {
    ComponentsOf(name);
  }

  lemma {:induction false} ComponentsOf(path: seq<byte>)
    ensures |Components(path)| == 1 <==> forall i :: 0 <= i < |path| ==> !IsSeparator(path[i])
    ensures |Components(path)| == 1 ==> Components(path) == [path]
    decreases |path|
  {
    if path != [] {
      ComponentsOf(path[1..]);
      assert path == [path[0]] + path[1..];
      assert forall i :: 0 < i < |path| ==> path[i] == path[1..][i - 1];
      assert (forall i :: 0 <= i < |path| ==> !IsSeparator(path[i])) <==>
             !IsSeparator(path[0]) && forall i :: 0 <= i < |path[1..]| ==> !IsSeparator(path[1..][i]);
    }
  }

  /** Mode and the cursor behind it; one octet after the digits is skipped,
      whatever it is. */
  function ModeField(buf: seq<byte>): (r: Result<Read<nat>, TextError>)
    ensures r.Ok? ==> r.value.idx <= |buf| && r.value.value < MODE_RANGE
  {
    if |buf| < MODE_OCTET_LEN + 1 || !AllOctal(buf[1..5]) then
      Err(BadArgument)
    else
      Ok(Read(OctalValue(buf[1..5]) % MODE_RANGE, if |buf| >= 6 then 6 else 5))
  }

  /** The octal digit loop of the mode field. */
  method GetScpFileMode(buf: seq<byte>) returns (r: Result<Read<nat>, TextError>)
    requires |buf| >= 1 && (buf[0] == LETTER_C || buf[0] == LETTER_D)
    ensures r == ModeField(buf)
  {
    if |buf| < MODE_OCTET_LEN + 1 {
      return Err(BadArgument);
    }
    var modeOctet: seq<byte> := buf[1..5];
    var mode := 0;
    for i := 0 to MODE_OCTET_LEN
      invariant AllOctal(modeOctet[..i]) && mode == OctalValue(modeOctet[..i])
    {
      if modeOctet[i] < ZERO || modeOctet[i] > 55 {
        return Err(BadArgument);
      }
      assert modeOctet[..i + 1][..i] == modeOctet[..i];
      mode := mode * 8 + (modeOctet[i] - ZERO) as int;
    }
    assert modeOctet[..4] == modeOctet;
    var idx := 5;
    if |buf| >= idx + 1 {
      idx := idx + 1;
    }
    return Ok(Read(mode % MODE_RANGE, idx));
  }

  function SizeField(buf: seq<byte>, idx: nat): (r: Result<Read<nat>, TextError>)
    requires idx <= |buf|
    ensures r.Ok? ==> r.value.idx <= |buf| && r.value.value <= MAX_WORD32
    ensures r.Ok? && Terminated(buf) ==> r.value.idx < |buf|
  {
    var sp := Scan(buf, idx, SPACE);
    if sp == |buf| then Err(BadMessage)
    else
      var n :- ParseUInt(buf[idx..sp], MAX_WORD32);
      Ok(Read(n, sp + 1))
  }

  function NameField(buf: seq<byte>, idx: nat): (r: Result<seq<byte>, TextError>)
    requires idx <= |buf|
    ensures r.Ok? ==> NameAccepted(r.value)
  {
    var name := buf[idx..Scan(buf, idx, NUL)];
    if NameAccepted(name) then Ok(name) else Err(BadMessage)
  }

  /** The length and the separator loop of the name field. */
  method GetScpFileName(buf: seq<byte>, idx: nat) returns (r: Result<seq<byte>, TextError>)
    requires idx <= |buf| && Terminated(buf)
    ensures r == NameField(buf, idx)
  {
    var end := idx;
    while end < |buf| && buf[end] != NUL
      invariant idx <= end <= |buf| && forall i :: idx <= i < end ==> buf[i] != NUL
    {
      end := end + 1;
    }
    if end < |buf| {
      ScanAt(buf, idx, NUL, end);
    }
    var name := buf[idx..end];
    if |name| == 0 || (|name| == 1 && name[0] == DOT) || (|name| == 2 && name[0] == DOT && name[1] == DOT) {
      return Err(BadMessage);
    }
    for i := 0 to |name|
      invariant forall k :: 0 <= k < i ==> name[k] != SLASH && name[k] != BACKSLASH
    {
      if name[i] == SLASH || name[i] == BACKSLASH {
        return Err(BadMessage);
      }
    }
    r := Ok(name);
  }

  /** One of the two times: digits from idx up to the first space found from
      start on, with something left behind the space. */
  function StampField(buf: seq<byte>, start: nat, idx: nat): (r: Result<Read<nat>, TextError>)
    requires start <= idx <= |buf|
    ensures r.Ok? ==> idx < r.value.idx < |buf|
  {
    var sp := Scan(buf, start, SPACE);
    if sp < idx || sp + 1 >= |buf| then Err(BadTimestamp)
    else
      var n := ParseUInt(buf[idx..sp], MAX_WORD64);
      if n.Err? then Err(BadTimestamp) else Ok(Read(n.value, sp + 1))
  }

  function TimeFields(buf: seq<byte>): (r: Result<Message, TextError>)
    requires |buf| >= 1
  {
    var m :- StampField(buf, 0, 1);
    if buf[m.idx] != ZERO || m.idx + 2 >= |buf| || buf[m.idx + 1] != SPACE then Err(BadTimestamp)
    else
      var a :- StampField(buf, m.idx + 2, m.idx + 2);
      Ok(TimeMsg(m.value, a.value))
  }

  /** The dispatch on the first octet of a terminated line. */
  function ParseMessage(buf: seq<byte>): (r: Result<Message, TextError>)
    requires Terminated(buf)
    ensures r.Ok? && (r.value.FileMsg? || r.value.DirMsg?) ==>
              NameAccepted(r.value.name) && r.value.mode < MODE_RANGE && r.value.size <= MAX_WORD32
  {
    if buf[0] == LETTER_C || buf[0] == LETTER_D then
      var mode :- ModeField(buf);
      var size :- SizeField(buf, mode.idx);
      var name :- NameField(buf, size.idx);
      Ok(if buf[0] == LETTER_C then FileMsg(mode.value, size.value, name)
         else DirMsg(mode.value, size.value, name))
    else if buf[0] == LETTER_E then Ok(EndDirMsg)
    else if buf[0] == LETTER_T then TimeFields(buf)
    else Err(BadMessage)
  }

  // ------------------------------------------------- what is understood

  /** The text of a C or D line: any octet may follow the mode, and anything the
      terminator. */
  predicate IsHeader(buf: seq<byte>, letter: byte, mode: nat, size: nat, name: seq<byte>,
                     oct: seq<byte>, any: byte, dec: seq<byte>, rest: seq<byte>) {
    && buf == [letter] + oct + [any] + dec + [SPACE] + name + [NUL] + rest
    && |oct| == MODE_OCTET_LEN && AllOctal(oct) && mode == OctalValue(oct) % MODE_RANGE
    && dec != [] && AllDigits(dec) && size == Value(dec) <= MAX_WORD32
    && NUL !in name && NameAccepted(name)
  }

  function HeaderMsg(letter: byte, mode: nat, size: nat, name: seq<byte>): Message {
    if letter == LETTER_C then FileMsg(mode, size, name) else DirMsg(mode, size, name)
  }

  /** A C or D line is understood exactly when it has that form, as what it says. */
  lemma HeaderParsedExactly(buf: seq<byte>, letter: byte, mode: nat, size: nat, name: seq<byte>)
    requires Terminated(buf) && (letter == LETTER_C || letter == LETTER_D)
    ensures ParseMessage(buf) == Ok(HeaderMsg(letter, mode, size, name)) <==>
            exists oct, any, dec, rest :: IsHeader(buf, letter, mode, size, name, oct, any, dec, rest)
  {
    if ParseMessage(buf) == Ok(HeaderMsg(letter, mode, size, name)) {
      HeaderTakenApart(buf, letter, mode, size, name);
    }
    if oct, any, dec, rest :| IsHeader(buf, letter, mode, size, name, oct, any, dec, rest) {
      HeaderUnderstood(buf, letter, mode, size, name, oct, any, dec, rest);
    }
  }

  lemma HeaderTakenApart(buf: seq<byte>, letter: byte, mode: nat, size: nat, name: seq<byte>)
    requires Terminated(buf) && (letter == LETTER_C || letter == LETTER_D)
    requires ParseMessage(buf) == Ok(HeaderMsg(letter, mode, size, name))
    ensures exists oct, any, dec, rest :: IsHeader(buf, letter, mode, size, name, oct, any, dec, rest)
  {
    hide ParseMessage, ModeField, SizeField, NameField, Value, OctalValue, NameAccepted;
    HeaderFields(buf, letter, mode, size, name);
    ModeTakenApart(buf);
    var sp := SizeTakenApart(buf, ModeField(buf).value.idx);
    var end := NameTakenApart(buf, sp + 1);
    HeaderPieces(buf, sp, end);
    assert IsHeader(buf, letter, mode, size, name, buf[1..5], buf[5], buf[6..sp], buf[end + 1..]);
  }

  lemma HeaderFields(buf: seq<byte>, letter: byte, mode: nat, size: nat, name: seq<byte>)
    requires Terminated(buf) && (letter == LETTER_C || letter == LETTER_D)
    requires ParseMessage(buf) == Ok(HeaderMsg(letter, mode, size, name))
    ensures buf[0] == letter
    ensures ModeField(buf).Ok? && ModeField(buf).value.value == mode && ModeField(buf).value.idx <= |buf|
    ensures var s := SizeField(buf, ModeField(buf).value.idx);
            s.Ok? && s.value.value == size && s.value.idx < |buf| && NameField(buf, s.value.idx) == Ok(name)
  {
  }

  lemma ModeTakenApart(buf: seq<byte>)
    requires Terminated(buf) && ModeField(buf).Ok?
    ensures |buf| >= 6 && AllOctal(buf[1..5])
    ensures ModeField(buf) == Ok(Read(OctalValue(buf[1..5]) % MODE_RANGE, 6))
  {
    assert buf[1..5][3] == buf[4] && IsOctal(buf[4]);
  }

  lemma SizeTakenApart(buf: seq<byte>, idx: nat) returns (sp: nat)
    requires idx <= |buf| && SizeField(buf, idx).Ok?
    ensures idx <= sp < |buf| && buf[sp] == SPACE && buf[idx..sp] != [] && AllDigits(buf[idx..sp])
    ensures Value(buf[idx..sp]) <= MAX_WORD32 && SizeField(buf, idx) == Ok(Read(Value(buf[idx..sp]), sp + 1))
  {
    sp := Scan(buf, idx, SPACE);
  }

  lemma NameTakenApart(buf: seq<byte>, idx: nat) returns (end: nat)
    requires idx < |buf| && Terminated(buf) && NameField(buf, idx).Ok?
    ensures idx <= end < |buf| && buf[end] == NUL && NameField(buf, idx) == Ok(buf[idx..end])
    ensures NUL !in buf[idx..end] && NameAccepted(buf[idx..end])
  {
    end := Scan(buf, idx, NUL);
  }

  lemma HeaderPieces(buf: seq<byte>, sp: nat, end: nat)
    requires 6 <= sp < end < |buf|
    ensures buf == [buf[0]] + buf[1..5] + [buf[5]] + buf[6..sp] + [buf[sp]] + buf[sp + 1..end] + [buf[end]]
                   + buf[end + 1..]
  {
    assert buf[..6] == [buf[0]] + buf[1..5] + [buf[5]];
    assert buf[..sp + 1] == buf[..6] + buf[6..sp] + [buf[sp]];
    assert buf[..end + 1] == buf[..sp + 1] + buf[sp + 1..end] + [buf[end]];
  }

  lemma HeaderUnderstood(buf: seq<byte>, letter: byte, mode: nat, size: nat, name: seq<byte>,
                         oct: seq<byte>, any: byte, dec: seq<byte>, rest: seq<byte>)
    requires Terminated(buf) && (letter == LETTER_C || letter == LETTER_D)
    requires IsHeader(buf, letter, mode, size, name, oct, any, dec, rest)
    ensures ParseMessage(buf) == Ok(HeaderMsg(letter, mode, size, name))
  {
    var sp, end := 6 + |dec|, 7 + |dec| + |name|;
    assert buf[0] == letter && buf[1..5] == oct && buf[6..sp] == dec && buf[sp] == SPACE;
    assert buf[sp + 1..end] == name && buf[end] == NUL;
    SizeFieldAt(buf, 6, sp);
    forall i | sp + 1 <= i < end ensures buf[i] != NUL {
      assert buf[i] == name[i - sp - 1];
    }
    ScanAt(buf, sp + 1, NUL, end);
  }

  /** The text of a T line: nothing is asked of what follows the second time. */
  predicate IsTimes(buf: seq<byte>, mtime: nat, atime: nat, a: seq<byte>, b: seq<byte>, rest: seq<byte>) {
    && buf == [LETTER_T] + a + [SPACE, ZERO, SPACE] + b + [SPACE] + rest && rest != []
    && a != [] && AllDigits(a) && mtime == Value(a) <= MAX_WORD64
    && b != [] && AllDigits(b) && atime == Value(b) <= MAX_WORD64
  }

  lemma TimesParsedExactly(buf: seq<byte>, mtime: nat, atime: nat)
    requires Terminated(buf)
    ensures ParseMessage(buf) == Ok(TimeMsg(mtime, atime)) <==>
            exists a, b, rest :: IsTimes(buf, mtime, atime, a, b, rest)
  {
    if ParseMessage(buf) == Ok(TimeMsg(mtime, atime)) {
      TimesTakenApart(buf, mtime, atime);
    }
    if a, b, rest :| IsTimes(buf, mtime, atime, a, b, rest) {
      TimesUnderstood(buf, mtime, atime, a, b, rest);
    }
  }

  lemma TimesTakenApart(buf: seq<byte>, mtime: nat, atime: nat)
    requires Terminated(buf) && ParseMessage(buf) == Ok(TimeMsg(mtime, atime))
    ensures exists a, b, rest :: IsTimes(buf, mtime, atime, a, b, rest)
  {
    hide Value;
    var sp := Scan(buf, 0, SPACE);
    var sp2 := Scan(buf, sp + 3, SPACE);
    TimesPieces(buf, sp, sp2);
    assert IsTimes(buf, mtime, atime, buf[1..sp], buf[sp + 3..sp2], buf[sp2 + 1..]);
  }

  lemma TimesPieces(buf: seq<byte>, sp: nat, sp2: nat)
    requires 1 <= sp && sp + 3 <= sp2 < |buf|
    ensures buf == [buf[0]] + buf[1..sp] + [buf[sp], buf[sp + 1], buf[sp + 2]] + buf[sp + 3..sp2] + [buf[sp2]]
                   + buf[sp2 + 1..]
  {
    assert buf[..sp + 3] == [buf[0]] + buf[1..sp] + [buf[sp], buf[sp + 1], buf[sp + 2]];
    assert buf[..sp2 + 1] == buf[..sp + 3] + buf[sp + 3..sp2] + [buf[sp2]];
  }

  lemma TimesUnderstood(buf: seq<byte>, mtime: nat, atime: nat, a: seq<byte>, b: seq<byte>, rest: seq<byte>)
    requires Terminated(buf) && IsTimes(buf, mtime, atime, a, b, rest)
    ensures ParseMessage(buf) == Ok(TimeMsg(mtime, atime))
  {
    var sp, sp2 := 1 + |a|, 4 + |a| + |b|;
    assert buf[0] == LETTER_T && buf[1..sp] == a && buf[sp + 3..sp2] == b;
    assert buf[sp] == SPACE && buf[sp + 1] == ZERO && buf[sp + 2] == SPACE && buf[sp2] == SPACE;
    forall i | 1 <= i < sp || sp + 3 <= i < sp2 ensures IsDigit(buf[i]) {
      if i < sp { assert buf[i] == a[i - 1]; } else { assert buf[i] == b[i - sp - 3]; }
    }
    TimeFieldsAt(buf, sp, sp2);
  }

  /** And an E line by its letter alone; no other line is understood. */
  lemma OtherLinesParsedExactly(buf: seq<byte>)
    requires Terminated(buf)
    ensures ParseMessage(buf) == Ok(EndDirMsg) <==> buf[0] == LETTER_E
    ensures ParseMessage(buf).Ok? ==> buf[0] in [LETTER_C, LETTER_D, LETTER_E, LETTER_T]
  {
  }

  // ------------------------------------------------------------- printing

  /** snprintf into a buffer of MSG_SZ keeps one octet for the terminator. */
  function Fit(line: seq<byte>): (r: seq<byte>)
    ensures r <= line && |r| == Min(|line|, MSG_SZ - 1)
  {
    if |line| < MSG_SZ then line else line[..MSG_SZ - 1]
  }

  function RawFileLine(mode: nat, size: nat, name: seq<byte>): seq<byte> {
    [LETTER_C] + Octal4(mode % MODE_RANGE) + [SPACE] + Decimal(size) + [SPACE] + name + [NEWLINE]
  }

  function RawDirLine(mode: nat, name: seq<byte>): seq<byte> {
    [LETTER_D] + Octal4(mode % MODE_RANGE) + [SPACE] + [ZERO] + [SPACE] + name + [NEWLINE]
  }

  function RawTimeLine(mtime: nat, atime: nat): seq<byte> {
    [LETTER_T] + Decimal(mtime) + [SPACE, ZERO, SPACE] + Decimal(atime) + [SPACE, ZERO, NEWLINE]
  }

  function FileLine(mode: nat, size: nat, name: seq<byte>): seq<byte> {
    Fit(RawFileLine(mode, size, name))
  }

  function DirLine(mode: nat, name: seq<byte>): seq<byte> {
    Fit(RawDirLine(mode, name))
  }

  function TimeLine(mtime: nat, atime: nat): seq<byte> {
    Fit(RawTimeLine(mtime, atime))
  }

  const END_LINE: seq<byte> := [LETTER_E, NEWLINE]

  /** A name the wire can carry: accepted by the sink and free of the two
      octets that would end the line or the string early. */
  predicate WireName(name: seq<byte>) {
    NameAccepted(name) && NUL !in name && NEWLINE !in name
  }

  /** A whole line: its one newline is its last octet, and it fits the buffer
      of the reader. */
  predicate WholeLine(line: seq<byte>) {
    && 1 < |line| < MSG_SZ
    && line[|line| - 1] == NEWLINE
    && forall i :: 0 <= i < |line| - 1 ==> line[i] != NEWLINE
  }

  /** What the reader parses once the line is complete. */
  function Seal(line: seq<byte>): (buf: seq<byte>)
    requires line != []
    ensures Terminated(buf) && |buf| == |line|
  {
    line[..|line| - 1] + [NUL]
  }

  function HeaderText(letter: byte, oct: seq<byte>, dec: seq<byte>, name: seq<byte>, last: byte): seq<byte> {
    [letter] + oct + [SPACE] + dec + [SPACE] + name + [last]
  }

  lemma HeaderTextLayout(letter: byte, oct: seq<byte>, dec: seq<byte>, name: seq<byte>, last: byte)
    requires |oct| == 4
    ensures var buf := HeaderText(letter, oct, dec, name, last); var sp := 6 + |dec|;
            && |buf| == sp + |name| + 2 && buf[0] == letter
            && buf[1..5] == oct && buf[5] == SPACE && buf[6..sp] == dec && buf[sp] == SPACE
            && buf[sp + 1..|buf| - 1] == name && buf[|buf| - 1] == last
  {
  }

  lemma SizeFieldAt(buf: seq<byte>, idx: nat, sp: nat)
    requires idx < sp < |buf| && buf[sp] == SPACE
    requires AllDigits(buf[idx..sp]) && Value(buf[idx..sp]) <= MAX_WORD32
    ensures SizeField(buf, idx) == Ok(Read(Value(buf[idx..sp]), sp + 1))
  {
    forall i | idx <= i < sp ensures buf[i] != SPACE {
      assert buf[i] == buf[idx..sp][i - idx];
    }
    ScanAt(buf, idx, SPACE, sp);
  }

  lemma NameFieldAt(buf: seq<byte>, idx: nat)
    requires idx < |buf| && Terminated(buf) && WireName(buf[idx..|buf| - 1])
    ensures NameField(buf, idx) == Ok(buf[idx..|buf| - 1])
  {
    var end := |buf| - 1;
    forall i | idx <= i < end ensures buf[i] != NUL {
      assert buf[i] == buf[idx..end][i - idx];
    }
    ScanAt(buf, idx, NUL, end);
  }

  /** The three field parsers, one after the other, over such a text. */
  lemma HeaderTextParses(letter: byte, oct: seq<byte>, dec: seq<byte>, name: seq<byte>)
    requires letter == LETTER_C || letter == LETTER_D
    requires |oct| == 4 && AllOctal(oct) && OctalValue(oct) < MODE_RANGE
    requires dec != [] && AllDigits(dec) && Value(dec) <= MAX_WORD32
    requires WireName(name)
    ensures ParseMessage(HeaderText(letter, oct, dec, name, NUL)) ==
            Ok(if letter == LETTER_C then FileMsg(OctalValue(oct), Value(dec), name)
               else DirMsg(OctalValue(oct), Value(dec), name))
  {
    HeaderTextLayout(letter, oct, dec, name, NUL);
    var buf, sp := HeaderText(letter, oct, dec, name, NUL), 6 + |dec|;
    assert ModeField(buf) == Ok(Read(OctalValue(oct), 6));
    SizeFieldAt(buf, 6, sp);
    NameFieldAt(buf, sp + 1);
  }

  lemma HeaderTextIsLine(letter: byte, oct: seq<byte>, dec: seq<byte>, name: seq<byte>)
    requires letter != NEWLINE && |oct| == 4 && AllOctal(oct) && AllDigits(dec) && NEWLINE !in name
    requires |HeaderText(letter, oct, dec, name, NEWLINE)| < MSG_SZ
    ensures WholeLine(HeaderText(letter, oct, dec, name, NEWLINE))
    ensures Seal(HeaderText(letter, oct, dec, name, NEWLINE)) == HeaderText(letter, oct, dec, name, NUL)
  {
    HeaderTextLayout(letter, oct, dec, name, NEWLINE);
    var line, sp := HeaderText(letter, oct, dec, name, NEWLINE), 6 + |dec|;
    forall i | 0 <= i < |line| - 1 ensures line[i] != NEWLINE {
      if 1 <= i < 5 { assert line[i] == line[1..5][i - 1]; }
      else if 6 <= i < sp { assert line[i] == line[6..sp][i - 6]; }
      else if sp < i { assert line[i] == line[sp + 1..|line| - 1][i - sp - 1]; }
    }
  }

  lemma HeaderRoundTrip(letter: byte, mode: nat, size: nat, name: seq<byte>, line: seq<byte>)
    requires letter == LETTER_C || letter == LETTER_D
    requires line == HeaderText(letter, Octal4(mode % MODE_RANGE), Decimal(size), name, NEWLINE)
    requires WireName(name) && size <= MAX_WORD32 && |line| < MSG_SZ
    ensures WholeLine(line)
    ensures ParseMessage(Seal(line)) == Ok(if letter == LETTER_C then FileMsg(mode % MODE_RANGE, size, name)
                                           else DirMsg(mode % MODE_RANGE, size, name))
  {
    OctalRoundTrip(mode % MODE_RANGE);
    ValueOfDecimal(size);
    HeaderTextIsLine(letter, Octal4(mode % MODE_RANGE), Decimal(size), name);
    HeaderTextParses(letter, Octal4(mode % MODE_RANGE), Decimal(size), name);
  }

  /** Printing then parsing a file header gives its fields back, the mode cut
      to 0777. */
  lemma FileLineRoundTrip(mode: nat, size: nat, name: seq<byte>)
    requires WireName(name) && size <= MAX_WORD32 && |RawFileLine(mode, size, name)| < MSG_SZ
    ensures WholeLine(FileLine(mode, size, name))
    ensures ParseMessage(Seal(FileLine(mode, size, name))) == Ok(FileMsg(mode % MODE_RANGE, size, name))
  {
    HeaderRoundTrip(LETTER_C, mode, size, name, FileLine(mode, size, name));
  }

  lemma DirLineRoundTrip(mode: nat, name: seq<byte>)
    requires WireName(name) && |RawDirLine(mode, name)| < MSG_SZ
    ensures WholeLine(DirLine(mode, name))
    ensures ParseMessage(Seal(DirLine(mode, name))) == Ok(DirMsg(mode % MODE_RANGE, 0, name))
  {
    assert Decimal(0) == [ZERO];
    HeaderRoundTrip(LETTER_D, mode, 0, name, DirLine(mode, name));
  }

  lemma EndLineRoundTrip()
    ensures WholeLine(END_LINE) && ParseMessage(Seal(END_LINE)) == Ok(EndDirMsg)
  {
  }

  function TimeText(a: seq<byte>, b: seq<byte>, last: byte): seq<byte> {
    [LETTER_T] + a + [SPACE, ZERO, SPACE] + b + [SPACE, ZERO] + [last]
  }

  lemma TimeTextLayout(a: seq<byte>, b: seq<byte>, last: byte)
    requires AllDigits(a) && AllDigits(b)
    ensures var buf := TimeText(a, b, last); var sp := 1 + |a|; var sp2 := sp + 3 + |b|;
            && |buf| == sp2 + 3 && buf[0] == LETTER_T
            && buf[1..sp] == a && buf[sp + 3..sp2] == b
            && buf[sp] == SPACE && buf[sp + 1] == ZERO && buf[sp + 2] == SPACE
            && buf[sp2] == SPACE && buf[sp2 + 1] == ZERO && buf[sp2 + 2] == last
            && (forall i :: 1 <= i < sp || sp + 3 <= i < sp2 ==> IsDigit(buf[i]))
  {
    var buf, sp := TimeText(a, b, last), 1 + |a|;
    var sp2 := sp + 3 + |b|;
    forall i | 1 <= i < sp || sp + 3 <= i < sp2 ensures IsDigit(buf[i]) {
      if i < sp { assert buf[i] == a[i - 1]; } else { assert buf[i] == b[i - sp - 3]; }
    }
  }

  lemma StampFieldAt(buf: seq<byte>, start: nat, idx: nat, sp: nat)
    requires start <= idx < sp && sp + 1 < |buf| && buf[sp] == SPACE
    requires forall i :: start <= i < sp ==> buf[i] != SPACE
    requires AllDigits(buf[idx..sp]) && Value(buf[idx..sp]) <= MAX_WORD64
    ensures StampField(buf, start, idx) == Ok(Read(Value(buf[idx..sp]), sp + 1))
  {
    ScanAt(buf, start, SPACE, sp);
  }

  lemma TimeFieldsAt(buf: seq<byte>, sp: nat, sp2: nat)
    requires 1 < sp && sp + 3 < sp2 && sp2 + 1 < |buf|
    requires buf[0] != SPACE && buf[sp] == SPACE && buf[sp + 1] == ZERO && buf[sp + 2] == SPACE && buf[sp2] == SPACE
    requires forall i :: 1 <= i < sp || sp + 3 <= i < sp2 ==> IsDigit(buf[i])
    requires Value(buf[1..sp]) <= MAX_WORD64 && Value(buf[sp + 3..sp2]) <= MAX_WORD64
    ensures TimeFields(buf) == Ok(TimeMsg(Value(buf[1..sp]), Value(buf[sp + 3..sp2])))
  {
    StampFieldAt(buf, 0, 1, sp);
    StampFieldAt(buf, sp + 3, sp + 3, sp2);
  }

  lemma Decimal64Length(n: nat)
    requires n <= MAX_WORD64
    ensures |Decimal(n)| <= 20
  {
    Pow10Of20();
    DecimalLength(n, 20);
  }

  lemma TimeTextIsLine(a: seq<byte>, b: seq<byte>)
    requires AllDigits(a) && AllDigits(b) && |a| <= 20 && |b| <= 20
    ensures WholeLine(TimeText(a, b, NEWLINE))
    ensures Seal(TimeText(a, b, NEWLINE)) == TimeText(a, b, NUL)
  {
    TimeTextLayout(a, b, NEWLINE);
  }

  lemma TimeTextParses(a: seq<byte>, b: seq<byte>)
    requires a != [] && b != [] && AllDigits(a) && AllDigits(b)
    requires Value(a) <= MAX_WORD64 && Value(b) <= MAX_WORD64
    ensures ParseMessage(TimeText(a, b, NUL)) == Ok(TimeMsg(Value(a), Value(b)))
  {
    TimeTextLayout(a, b, NUL);
    TimeFieldsAt(TimeText(a, b, NUL), 1 + |a|, 4 + |a| + |b|);
  }

  /** Every pair of 64-bit times fits the buffer and comes back unchanged. */
  lemma TimeLineRoundTrip(mtime: nat, atime: nat)
    requires mtime <= MAX_WORD64 && atime <= MAX_WORD64
    ensures WholeLine(TimeLine(mtime, atime))
    ensures ParseMessage(Seal(TimeLine(mtime, atime))) == Ok(TimeMsg(mtime, atime))
  {
    Decimal64Length(mtime);
    Decimal64Length(atime);
    ValueOfDecimal(mtime);
    ValueOfDecimal(atime);
    assert RawTimeLine(mtime, atime) == TimeText(Decimal(mtime), Decimal(atime), NEWLINE);
    TimeTextIsLine(Decimal(mtime), Decimal(atime));
    TimeTextParses(Decimal(mtime), Decimal(atime));
  }
}

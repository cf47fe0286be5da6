/**
 * The value types of the Hex board (src/player/board.rs): colours, positions and moves,
 * with the text forms HTP uses for them.  Coordinates are Rust `u8` values; where the
 * source does `u8` arithmetic that can overflow, the model wraps modulo 256 (release-build
 * semantics) and says so.
 */
module Hex {
  import opened Wrappers
  import opened Text

  datatype Color = Black | White

  /** ASCII lower-casing; the only characters whose lower case is `b` or `w` are `B` and `W`. */
  function LowerAscii(ch: char): (r: char)
    ensures 'A' <= ch <= 'Z' ==> r as int == ch as int + 32
    ensures !('A' <= ch <= 'Z') ==> r == ch
  {
    if 'A' <= ch <= 'Z' then (ch as int + 32) as char else ch
  }

  /** `Color::from_str`: the first character of the lower-cased text decides. */
  function ParseColor(s: string): (r: Option<Color>)
    ensures r == Some(Black) <==> s != [] && (s[0] == 'b' || s[0] == 'B')
    ensures r == Some(White) <==> s != [] && (s[0] == 'w' || s[0] == 'W')
  {
    if s == [] then None
    else match LowerAscii(s[0])
      case 'b' => Some(Black)
      case 'w' => Some(White)
      case _ => None
  }

  /** `Display for Color`. */
  function ColorName(c: Color): (s: string)
    ensures |s| == 1
    ensures ParseColor(s) == Some(c)
  {
    match c
    case Black => "B"
    case White => "W"
  }

  /** `Color::invert`. */
  function Invert(c: Color): (r: Color)
    ensures r != c
  {
    match c
    case Black => White
    case White => Black
  }

  lemma InvertInvolution(c: Color)
    ensures Invert(Invert(c)) == c
  {
  }

  /** `From<bool> for Color`: `true` is White. */
  function ColorFromBool(v: bool): (c: Color)
    ensures c == White <==> v
  {
    if v then White else Black
  }

  /** `From<Color> for bool`, the inverse of `ColorFromBool`. */
  function ColorToBool(c: Color): (v: bool)
    ensures v <==> c == White
    ensures ColorFromBool(v) == c
  {
    c == White
  }

  lemma BoolColorRoundTrip(v: bool)
    ensures ColorToBool(ColorFromBool(v)) == v
  {
  }

  /** `val as usize`: Black is group 0, White is group 1. */
  function ColorIndex(c: Color): (i: nat)
    ensures i < 2
    ensures ColorFromBool(i > 0) == c
  {
    match c
    case Black => 0
    case White => 1
  }

  /** Rust's `u8`. */
  type Coord = x: int | 0 <= x < 256

  datatype Pos = Pos(x: Coord, y: Coord)

  /** The Kelvin sign, whose lower case is the ASCII letter `k`. */
  const Kelvin: char := '\U{212A}'

  /**
   * The lone ASCII letter that `s.to_lowercase()` starts with, when the first character
   * lower-cases to exactly one ASCII letter; `'\0'` stands for every other case.  Besides
   * `A`..`Z`, the Kelvin sign is the only such character.  U+0130 lower-cases to `i`
   * followed by U+0307, so the rest starts with a combining mark that no colour or `u8`
   * parse accepts: mapping it to `'\0'` gives the same parse results.
   */
  function LowerFirstLetter(ch: char): (r: char)
    ensures r == '\0' || 'a' <= r <= 'z'
    ensures r != '\0' <==> 'a' <= ch <= 'z' || 'A' <= ch <= 'Z' || ch == Kelvin
    ensures 'A' <= ch <= 'Z' ==> r == LowerAscii(ch)
  {
    if 'a' <= ch <= 'z' then ch
    else if 'A' <= ch <= 'Z' then (ch as int + 32) as char
    else if ch == Kelvin then 'k'
    else '\0'
  }

  /**
   * `Pos::from_str`: a letter gives the column (`a` is 0), the rest must parse as a `u8`
   * row number counted from 1.  Row 0 wraps to 255, which is on no board.  The source
   * indexes the first byte, so the empty string would panic: it is excluded.
   */
  function ParsePos(s: string): (r: Option<Pos>)
    requires s != []
    ensures r.Some? <==> LowerFirstLetter(s[0]) != '\0' && ParseU8(s[1..]).Some?
    ensures r.Some? ==> r.value.x == LowerFirstLetter(s[0]) as int - 'a' as int
    ensures r.Some? ==> r.value.y == (ParseU8(s[1..]).value + 255) % 256
  {
    var letter := LowerFirstLetter(s[0]);
    if letter == '\0' then None
    else match ParseU8(s[1..])
      case None => None
      case Some(n) => Some(Pos(letter as int - 'a' as int, (n + 255) % 256))
  }

  /** The character `(x + 'A' as u8) as char`, wrapping as `u8` addition does. */
  function ColumnLetter(x: Coord): (ch: char)
    ensures x < 26 ==> 'A' <= ch <= 'Z' && LowerFirstLetter(ch) as int - 'a' as int == x
  {
    ((x + 'A' as int) % 256) as char
  }

  /** `Display for Pos`: the column as an upper-case letter, then the row counted from 1. */
  function PosName(p: Pos): (s: string)
    ensures |s| >= 2 && s[0] == ColumnLetter(p.x)
    ensures AllDigits(s[1..]) && DigitsValue(s[1..]) == (p.y + 1) % 256
  {
    var digits := Decimal((p.y + 1) % 256);
    DecimalValue((p.y + 1) % 256);
    assert ([ColumnLetter(p.x)] + digits)[1..] == digits;
    [ColumnLetter(p.x)] + digits
  }

  /** Printing and parsing a position agree on every position with a letter for a column. */
  lemma PosRoundTrip(p: Pos)
    requires p.x < 26 && p.y < 255
    ensures ParsePos(PosName(p)) == Some(p)
  {
    var s := PosName(p);
    assert s[1..] == Decimal(p.y + 1);
    ParseU8Decimal(p.y + 1);
  }

  /** A non-letter in front, or a row that is not a `u8`, is rejected. */
  lemma ParsePosRejects(s: string)
    requires s != []
    requires !('a' <= s[0] <= 'z' || 'A' <= s[0] <= 'Z' || s[0] == Kelvin) || ParseU8(s[1..]).None?
    ensures ParsePos(s) == None
  {
  }

  /** `Move`; Rust's `Move::None` (printed "pass") is called `Pass` here. */
  datatype Move = Resign | Pass | Play(color: Color, pos: Pos)

  /** `Move::pos`. */
  function MovePos(m: Move): (r: Option<Pos>)
    ensures r.Some? <==> m.Play?
    ensures m.Play? ==> r.value == m.pos
  {
    if m.Play? then Some(m.pos) else None
  }

  /** `Move::color`. */
  function MoveColor(m: Move): (r: Option<Color>)
    ensures r.Some? <==> m.Play?
    ensures m.Play? ==> r.value == m.color
  {
    if m.Play? then Some(m.color) else None
  }

  /** `Display for Move`: a stone prints with a capital column letter, `resign` and `pass` in lower case. */
  function MoveName(m: Move): (s: string)
    ensures s != []
    ensures !m.Play? ==> 'a' <= s[0] <= 'z'
    ensures m.Play? && m.pos.x < 26 ==> 'A' <= s[0] <= 'Z'
  {
    match m
    case Resign => "resign"
    case Pass => "pass"
    case Play(_, p) => PosName(p)
  }

  /** The printed form of a placed stone reads back as its position. */
  lemma MoveNameRoundTrip(m: Move)
    requires m.Play? && m.pos.x < 26 && m.pos.y < 255
    ensures MoveName(m) != "resign" && MoveName(m) != "pass"
    ensures ParsePos(MoveName(m)) == Some(m.pos)
  {
    PosRoundTrip(m.pos);
    assert MoveName(m)[0] == ColumnLetter(m.pos.x);
  }
}

/**
 * The path serialiser of the shapes package (packages/shapes/src/utils/instructions.ts) and the
 * circle built with it (packages/shapes/src/utils/make-circle.ts). The commands are those of
 * SVG 1.1 section 8.3 (Path Data): absolute moveto `M`, lineto `L` and cubic Bézier `C`, relative
 * moveto `m` and relative elliptical arc `a`. Coordinates are integers here; JavaScript's
 * number-to-string conversion of fractions is not part of this model.
 */
module SvgPath {

  import opened Wrappers
  import opened Text

  /** `Instruction`, one constructor per `type`. */
  datatype Instruction =
    | MoveTo(x: int, y: int)
    | LineTo(x: int, y: int)
    | CurveTo(cp1x: int, cp1y: int, cp2x: int, cp2y: int, x: int, y: int)
    | MoveBy(x: int, y: int)
    | ArcBy(rx: int, ry: int, xAxisRotation: int, largeArcFlag: bool, sweepFlag: bool, x: int, y: int)

  function Letter(i: Instruction): char {
    match i
    case MoveTo(_, _) => 'M'
    case LineTo(_, _) => 'L'
    case CurveTo(_, _, _, _, _, _) => 'C'
    case MoveBy(_, _) => 'm'
    case ArcBy(_, _, _, _, _, _, _) => 'a'
  }

  /** `Number(flag)`. */
  function FlagString(b: bool): string {
    if b then "1" else "0"
  }

  /** `serializeInstruction`: the letter, then the parameters, separated by single spaces. */
  function SerializeInstruction(i: Instruction): string {
    match i
    case MoveTo(x, y) => "M " + IntToString(x) + " " + IntToString(y)
    case LineTo(x, y) => "L " + IntToString(x) + " " + IntToString(y)
    case CurveTo(a, b, c, d, x, y) =>
      "C " + IntToString(a) + " " + IntToString(b) + " " + IntToString(c) + " " + IntToString(d) +
      " " + IntToString(x) + " " + IntToString(y)
    case MoveBy(x, y) => "m " + IntToString(x) + " " + IntToString(y)
    case ArcBy(rx, ry, rot, large, sweep, x, y) =>
      "a " + IntToString(rx) + " " + IntToString(ry) + " " + IntToString(rot) + " " + FlagString(large) +
      " " + FlagString(sweep) + " " + IntToString(x) + " " + IntToString(y)
  }

  /** `serializeInstructions`: the serialised instructions, in order, joined with single spaces. */
  function SerializeInstructions(instructions: seq<Instruction>): string {
    Join(Serialized(instructions), " ")
  }

  function Serialized(instructions: seq<Instruction>): (r: seq<string>)
    ensures |r| == |instructions|
    ensures forall k :: 0 <= k < |r| ==> r[k] == SerializeInstruction(instructions[k])
    decreases |instructions|
  {
    if |instructions| == 0 then [] else [SerializeInstruction(instructions[0])] + Serialized(instructions[1..])
  }

  /** How many space-separated tokens an instruction with letter `c` has, its letter included. */
  function TokenCount(c: char): nat {
    match c
    case 'M' => 3
    case 'L' => 3
    case 'C' => 7
    case 'm' => 3
    case 'a' => 8
    case _ => 0
  }

  /** The tokens of one instruction: its letter and its parameters in the order the SVG grammar gives them. */
  function Tokens(i: Instruction): (r: seq<string>)
    ensures |r| == TokenCount(Letter(i)) && r[0] == [Letter(i)]
  {
    match i
    case MoveTo(x, y) => ["M", IntToString(x), IntToString(y)]
    case LineTo(x, y) => ["L", IntToString(x), IntToString(y)]
    case CurveTo(a, b, c, d, x, y) =>
      ["C", IntToString(a), IntToString(b), IntToString(c), IntToString(d), IntToString(x), IntToString(y)]
    case MoveBy(x, y) => ["m", IntToString(x), IntToString(y)]
    case ArcBy(rx, ry, rot, large, sweep, x, y) =>
      ["a", IntToString(rx), IntToString(ry), IntToString(rot), FlagString(large), FlagString(sweep),
       IntToString(x), IntToString(y)]
  }

  function ParseFlag(s: string): Option<bool> {
    if s == "1" then Some(true) else if s == "0" then Some(false) else None
  }

  /** Reads one instruction from exactly its tokens: the letter decides how many numbers follow. */
  function ParseTokens(t: seq<string>): Option<Instruction> {
    if |t| == 0 || |t[0]| != 1 || |t| != TokenCount(t[0][0]) then None
    else
      var c := t[0][0];
      if c == 'a' then
        match (ParseInt(t[1]), ParseInt(t[2]), ParseInt(t[3]), ParseFlag(t[4]), ParseFlag(t[5]), ParseInt(t[6]), ParseInt(t[7]))
        case (Some(rx), Some(ry), Some(rot), Some(large), Some(sweep), Some(x), Some(y)) =>
          Some(ArcBy(rx, ry, rot, large, sweep, x, y))
        case _ => None
      else if c == 'C' then
        match (ParseInt(t[1]), ParseInt(t[2]), ParseInt(t[3]), ParseInt(t[4]), ParseInt(t[5]), ParseInt(t[6]))
        case (Some(a), Some(b), Some(cc), Some(d), Some(x), Some(y)) => Some(CurveTo(a, b, cc, d, x, y))
        case _ => None
      else
        match (ParseInt(t[1]), ParseInt(t[2]))
        case (Some(x), Some(y)) =>
          Some(if c == 'M' then MoveTo(x, y) else if c == 'L' then LineTo(x, y) else MoveBy(x, y))
        case _ => None
  }

  /** Reads a whole token stream, one instruction after another. */
  function ParseStream(t: seq<string>): Option<seq<Instruction>>
    decreases |t|
  {
    if |t| == 0 then Some([])
    else if |t[0]| != 1 || TokenCount(t[0][0]) == 0 || |t| < TokenCount(t[0][0]) then None
    else
      var n := TokenCount(t[0][0]);
      match (ParseTokens(t[..n]), ParseStream(t[n..]))
      case (Some(i), Some(rest)) => Some([i] + rest)
      case _ => None
  }

  /** Reads a path string back into instructions; the empty path is no instructions. */
  function ParsePath(s: string): Option<seq<Instruction>> {
    if s == "" then Some([]) else ParseStream(Split(s, ' '))
  }

  lemma NoSpaceInNumber(i: int)
    ensures ' ' !in IntToString(i)
  {
    var s := NatToString(if i < 0 then -i else i);
    assert forall k :: 0 <= k < |s| ==> IsDigit(s[k]);
    if i < 0 {
      assert IntToString(i) == "-" + s;
      assert forall k :: 0 <= k < |IntToString(i)| ==> IntToString(i)[k] == '-' || IsDigit(IntToString(i)[k]);
    }
  }

  lemma NoSpaceInTokens(i: Instruction)
    ensures forall k :: 0 <= k < |Tokens(i)| ==> ' ' !in Tokens(i)[k]
  {
    match i
    case MoveTo(x, y) => NoSpaceInNumber(x); NoSpaceInNumber(y);
    case LineTo(x, y) => NoSpaceInNumber(x); NoSpaceInNumber(y);
    case CurveTo(a, b, c, d, x, y) =>
      NoSpaceInNumber(a); NoSpaceInNumber(b); NoSpaceInNumber(c); NoSpaceInNumber(d);
      NoSpaceInNumber(x); NoSpaceInNumber(y);
    case MoveBy(x, y) => NoSpaceInNumber(x); NoSpaceInNumber(y);
    case ArcBy(rx, ry, rot, _, _, x, y) =>
      NoSpaceInNumber(rx); NoSpaceInNumber(ry); NoSpaceInNumber(rot); NoSpaceInNumber(x); NoSpaceInNumber(y);
  }

  lemma JoinCons(a: string, rest: seq<string>, sep: string)
    requires |rest| >= 1
    ensures Join([a] + rest, sep) == a + sep + Join(rest, sep)
  {
    assert ([a] + rest)[1..] == rest;
  }

  /** Three tokens joined: the shape of `M`, `L` and `m`. */
  lemma JoinThree(a: string, b: string, c: string)
    ensures Join([a, b, c], " ") == a + " " + b + " " + c
  {
    JoinCons(a, [b, c], " ");
    JoinCons(b, [c], " ");
    assert [a, b, c] == [a] + [b, c];
    assert [b, c] == [b] + [c];
  }

  /** n tokens joined, from the end's point of view: one more token in front adds it and a space. */
  lemma JoinFront(a: string, rest: seq<string>, joined: string)
    requires |rest| >= 1 && Join(rest, " ") == joined
    ensures Join([a] + rest, " ") == a + " " + joined
  {
    JoinCons(a, rest, " ");
  }

  /** The serialised string is its tokens joined with single spaces. */
  lemma SerializeIsJoinOfTokens(i: Instruction)
    ensures SerializeInstruction(i) == Join(Tokens(i), " ")
  {
    match i
    case MoveTo(x, y) => TwoNumbers('M', x, y);
    case LineTo(x, y) => TwoNumbers('L', x, y);
    case MoveBy(x, y) => TwoNumbers('m', x, y);
    case CurveTo(a, b, c, d, x, y) => SerializeCurve(a, b, c, d, x, y);
    case ArcBy(rx, ry, rot, large, sweep, x, y) => SerializeArc(rx, ry, rot, large, sweep, x, y);
  }

  lemma TwoNumbers(c: char, x: int, y: int)
    ensures [c, ' '] + IntToString(x) + " " + IntToString(y) == Join([[c], IntToString(x), IntToString(y)], " ")
  {
    JoinThree([c], IntToString(x), IntToString(y));
  }

  lemma SerializeCurve(a: int, b: int, c: int, d: int, x: int, y: int)
    ensures SerializeInstruction(CurveTo(a, b, c, d, x, y)) == Join(Tokens(CurveTo(a, b, c, d, x, y)), " ")
  {
    var n := [IntToString(a), IntToString(b), IntToString(c), IntToString(d), IntToString(x), IntToString(y)];
    JoinSeven("C", n[0], n[1], n[2], n[3], n[4], n[5]);
    assert "C" + " " == "C ";
  }

  lemma SerializeArc(rx: int, ry: int, rot: int, large: bool, sweep: bool, x: int, y: int)
    ensures SerializeInstruction(ArcBy(rx, ry, rot, large, sweep, x, y)) == Join(Tokens(ArcBy(rx, ry, rot, large, sweep, x, y)), " ")
  {
    var n := [IntToString(rx), IntToString(ry), IntToString(rot), FlagString(large), FlagString(sweep),
              IntToString(x), IntToString(y)];
    JoinEight("a", n[0], n[1], n[2], n[3], n[4], n[5], n[6]);
    assert "a" + " " == "a ";
  }

  lemma JoinEight(a: string, b: string, c: string, d: string, e: string, f: string, g: string, h: string)
    ensures Join([a, b, c, d, e, f, g, h], " ") ==
      a + " " + b + " " + c + " " + d + " " + e + " " + f + " " + g + " " + h
  {
    JoinSeven(b, c, d, e, f, g, h);
    assert [a, b, c, d, e, f, g, h] == [a] + [b, c, d, e, f, g, h];
    JoinFront(a, [b, c, d, e, f, g, h], b + " " + c + " " + d + " " + e + " " + f + " " + g + " " + h);
  }

  lemma JoinSeven(a: string, b: string, c: string, d: string, e: string, f: string, g: string)
    ensures Join([a, b, c, d, e, f, g], " ") == a + " " + b + " " + c + " " + d + " " + e + " " + f + " " + g
  {
    JoinThree(a, b, c);
    assert Join([a, b, c, d], " ") == a + " " + b + " " + c + " " + d by {
      JoinSnoc([a, b, c], d, " ");
      assert [a, b, c] + [d] == [a, b, c, d];
    }
    assert Join([a, b, c, d, e], " ") == a + " " + b + " " + c + " " + d + " " + e by {
      JoinSnoc([a, b, c, d], e, " ");
      assert [a, b, c, d] + [e] == [a, b, c, d, e];
    }
    assert Join([a, b, c, d, e, f], " ") == a + " " + b + " " + c + " " + d + " " + e + " " + f by {
      JoinSnoc([a, b, c, d, e], f, " ");
      assert [a, b, c, d, e] + [f] == [a, b, c, d, e, f];
    }
    JoinSnoc([a, b, c, d, e, f], g, " ");
    assert [a, b, c, d, e, f] + [g] == [a, b, c, d, e, f, g];
  }

  /** One more token at the end adds a separator and that token. */
  lemma {:induction false} JoinSnoc(s: seq<string>, x: string, sep: string)
    requires |s| >= 1
    ensures Join(s + [x], sep) == Join(s, sep) + sep + x
    decreases |s|
  {
    if |s| == 1 {
      assert (s + [x])[1..] == [x];
    } else {
      JoinSnoc(s[1..], x, sep);
      assert (s + [x])[1..] == s[1..] + [x];
      assert Join(s + [x], sep) == s[0] + sep + (Join(s[1..], sep) + sep + x);
    }
  }

  /**
   * Each instruction serialises to its type letter followed by its parameters, with a fixed
   * number of space-separated tokens per type (3 for M, L and m, 7 for C, 8 for a), and reads
   * back as that same instruction.
   */
  lemma InstructionRoundTrip(i: Instruction)
    ensures var t := Split(SerializeInstruction(i), ' ');
      t == Tokens(i) && |t| == TokenCount(Letter(i)) && t[0] == [Letter(i)]
    ensures ParseTokens(Tokens(i)) == Some(i)
  {
    SerializeIsJoinOfTokens(i);
    NoSpaceInTokens(i);
    SplitJoin(Tokens(i), ' ');
    TokensParseBack(i);
  }

  lemma TokensParseBack(i: Instruction)
    ensures ParseTokens(Tokens(i)) == Some(i)
  {
    match i
    case MoveTo(x, y) => PointParsesBack(i, x, y);
    case LineTo(x, y) => PointParsesBack(i, x, y);
    case MoveBy(x, y) => PointParsesBack(i, x, y);
    case CurveTo(a, b, c, d, x, y) => CurveParsesBack(a, b, c, d, x, y);
    case ArcBy(rx, ry, rot, large, sweep, x, y) => ArcParsesBack(rx, ry, rot, large, sweep, x, y);
  }

  lemma PointParsesBack(i: Instruction, x: int, y: int)
    requires i == MoveTo(x, y) || i == LineTo(x, y) || i == MoveBy(x, y)
    ensures ParseTokens(Tokens(i)) == Some(i)
  {
    ParseIntToString(x);
    ParseIntToString(y);
    var t := Tokens(i);
    assert t == [[Letter(i)], IntToString(x), IntToString(y)];
    assert ParseInt(t[1]) == Some(x) && ParseInt(t[2]) == Some(y);
  }

  lemma CurveParsesBack(a: int, b: int, c: int, d: int, x: int, y: int)
    ensures ParseTokens(Tokens(CurveTo(a, b, c, d, x, y))) == Some(CurveTo(a, b, c, d, x, y))
  {
    ParseIntToString(a); ParseIntToString(b); ParseIntToString(c); ParseIntToString(d);
    ParseIntToString(x); ParseIntToString(y);
  }

  lemma ArcParsesBack(rx: int, ry: int, rot: int, large: bool, sweep: bool, x: int, y: int)
    ensures ParseTokens(Tokens(ArcBy(rx, ry, rot, large, sweep, x, y))) == Some(ArcBy(rx, ry, rot, large, sweep, x, y))
  {
    ParseIntToString(rx); ParseIntToString(ry); ParseIntToString(rot); ParseIntToString(x); ParseIntToString(y);
    assert ParseFlag(FlagString(large)) == Some(large);
    assert ParseFlag(FlagString(sweep)) == Some(sweep);
  }

  /** The tokens of a sequence of instructions, in order. */
  function AllTokens(instructions: seq<Instruction>): seq<string>
    decreases |instructions|
  {
    if |instructions| == 0 then [] else Tokens(instructions[0]) + AllTokens(instructions[1..])
  }

  lemma {:induction false} JoinConcat(a: seq<string>, b: seq<string>, sep: string)
    requires |a| >= 1 && |b| >= 1
    ensures Join(a + b, sep) == Join(a, sep) + sep + Join(b, sep)
    decreases |a|
  {
    if |a| == 1 {
      assert (a + b)[1..] == b;
    } else {
      assert (a + b)[1..] == a[1..] + b;
      JoinConcat(a[1..], b, sep);
    }
  }

  lemma {:induction false} StreamIsJoinOfTokens(instructions: seq<Instruction>)
    requires |instructions| >= 1
    ensures SerializeInstructions(instructions) == Join(AllTokens(instructions), " ")
    ensures |AllTokens(instructions)| >= 1
    ensures forall k :: 0 <= k < |AllTokens(instructions)| ==> ' ' !in AllTokens(instructions)[k]
    decreases |instructions|
  {
    var i := instructions[0];
    var rest := instructions[1..];
    SerializeIsJoinOfTokens(i);
    NoSpaceInTokens(i);
    if |rest| == 0 {
      assert AllTokens(instructions) == Tokens(i) + AllTokens(rest);
      assert AllTokens(instructions) == Tokens(i);
      assert Serialized(instructions) == [SerializeInstruction(i)];
    } else {
      StreamIsJoinOfTokens(rest);
      JoinConcat(Tokens(i), AllTokens(rest), " ");
      assert Serialized(instructions) == [SerializeInstruction(i)] + Serialized(rest);
      assert Serialized(instructions)[1..] == Serialized(rest);
      var all := AllTokens(instructions);
      assert all == Tokens(i) + AllTokens(rest);
      forall k | 0 <= k < |all| ensures ' ' !in all[k] {
        if k >= |Tokens(i)| {
          assert all[k] == AllTokens(rest)[k - |Tokens(i)|];
        }
      }
    }
  }

  lemma {:induction false} ParseAllTokens(instructions: seq<Instruction>)
    ensures ParseStream(AllTokens(instructions)) == Some(instructions)
    decreases |instructions|
  {
    if |instructions| > 0 {
      var i := instructions[0];
      var t := AllTokens(instructions);
      InstructionRoundTrip(i);
      assert t == Tokens(i) + AllTokens(instructions[1..]);
      var n := TokenCount(Letter(i));
      assert t[0] == [Letter(i)];
      assert t[..n] == Tokens(i);
      assert t[n..] == AllTokens(instructions[1..]);
      ParseAllTokens(instructions[1..]);
      assert [i] + instructions[1..] == instructions;
    }
  }

  /**
   * `serializeInstructions` loses nothing: its output reads back as the same instructions, in the
   * same order, and the empty list gives the empty string.
   */
  lemma PathRoundTrip(instructions: seq<Instruction>)
    ensures ParsePath(SerializeInstructions(instructions)) == Some(instructions)
    ensures instructions == [] <==> SerializeInstructions(instructions) == ""
  {
    if |instructions| == 0 {
      assert Serialized(instructions) == [];
    } else {
      StreamIsJoinOfTokens(instructions);
      SplitJoin(AllTokens(instructions), ' ');
      ParseAllTokens(instructions);
      var t := AllTokens(instructions);
      assert t == Tokens(instructions[0]) + AllTokens(instructions[1..]);
      JoinStartsWithFirst(t);
      assert SerializeInstructions(instructions) != "";
    }
  }

  lemma JoinStartsWithFirst(t: seq<string>)
    requires |t| >= 1 && |t[0]| >= 1
    ensures |Join(t, " ")| >= 1
  {
  }

  /** The pen position after drawing: absolute commands set it, relative ones move it. */
  function PenAfter(instructions: seq<Instruction>, start: (int, int)): (int, int)
    decreases |instructions|
  {
    if |instructions| == 0 then start
    else
      var p := PenAfter(instructions[..|instructions| - 1], start);
      match instructions[|instructions| - 1]
      case MoveTo(x, y) => (x, y)
      case LineTo(x, y) => (x, y)
      case CurveTo(_, _, _, _, x, y) => (x, y)
      case MoveBy(x, y) => (p.0 + x, p.1 + y)
      case ArcBy(_, _, _, _, _, x, y) => (p.0 + x, p.1 + y)
  }

  /** `ShapeInfo`. */
  datatype ShapeInfo = ShapeInfo(
    height: int, width: int, path: string, instructions: seq<Instruction>, transformOrigin: string)

  /** `makeCircle`: a move to the centre, then to the left edge, then two half-circle arcs. */
  function MakeCircle(radius: int): (r: ShapeInfo)
    ensures r.height == 2 * radius && r.width == 2 * radius
    ensures r.path == SerializeInstructions(r.instructions)
    ensures r.transformOrigin == IntToString(radius) + " " + IntToString(radius)
  {
    var instructions := [
      MoveTo(radius, radius),
      MoveBy(-radius, 0),
      ArcBy(radius, radius, 0, true, false, radius * 2, 0),
      ArcBy(radius, radius, 0, true, false, -radius * 2, 0)];
    ShapeInfo(radius * 2, radius * 2, SerializeInstructions(instructions), instructions,
              IntToString(radius) + " " + IntToString(radius))
  }

  /**
   * The circle's path is a move to (r, r), a relative move by (-r, 0), and two arcs of radius r
   * with the large-arc flag set and the sweep flag clear whose displacements are +2r and -2r:
   * the second arc ends where the first began, at the left edge (0, r). The path string reads
   * back as exactly these instructions.
   */
  lemma CircleShape(radius: int)
    ensures var c := MakeCircle(radius);
      var steps := c.instructions;
      |steps| == 4 && steps[0] == MoveTo(radius, radius) && steps[1] == MoveBy(-radius, 0) &&
      (forall k :: 2 <= k < 4 ==> steps[k].ArcBy? && steps[k].rx == radius && steps[k].ry == radius &&
                                   steps[k].largeArcFlag && !steps[k].sweepFlag && steps[k].y == 0) &&
      steps[2].x + steps[3].x == 0 && steps[2].x == 2 * radius &&
      PenAfter(steps[..2], (0, 0)) == (0, radius) && PenAfter(steps, (0, 0)) == (0, radius) &&
      ParsePath(c.path) == Some(steps)
  {
    var steps := MakeCircle(radius).instructions;
    PathRoundTrip(steps);
    CirclePen(steps, radius);
  }

  /** The pen positions along the circle's instructions, one instruction at a time. */
  lemma CirclePen(steps: seq<Instruction>, radius: int)
    requires steps == MakeCircle(radius).instructions
    ensures PenAfter(steps[..2], (0, 0)) == (0, radius) && PenAfter(steps, (0, 0)) == (0, radius)
  {
    assert steps[..1][..0] == [];
    assert PenAfter(steps[..1], (0, 0)) == (radius, radius);
    assert steps[..2][..1] == steps[..1];
    assert PenAfter(steps[..2], (0, 0)) == (0, radius);
    assert steps[..3][..2] == steps[..2];
    assert PenAfter(steps[..3], (0, 0)) == (2 * radius, radius);
    assert steps[..4][..3] == steps[..3];
    assert steps[..4] == steps;
  }
}

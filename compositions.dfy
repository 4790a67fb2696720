/**
 * The table printed by `npx remotion compositions` (packages/cli/src/compositions.ts): `max` over
 * the id lengths, the three column widths, the header and one row per composition. Loading the
 * compositions from the bundle is not part of this model; the text `toFixed(2)` makes of the
 * duration in seconds is a function parameter.
 */
module Compositions {

  import opened Wrappers
  import opened Text

  const EmptyError := "Array of 0 length"

  /** The largest element of a non-empty sequence. */
  function Largest(xs: seq<int>): (m: int)
    requires |xs| > 0
    ensures m in xs && forall i :: 0 <= i < |xs| ==> xs[i] <= m
    decreases |xs|
  {
    if |xs| == 1 then xs[0]
    else
      var init := xs[..|xs| - 1];
      var m := Largest(init);
      assert forall i :: 0 <= i < |init| ==> xs[i] == init[i];
      if xs[|xs| - 1] > m then xs[|xs| - 1] else m
  }

  /** `max`: throws on an empty array, else scans it keeping the biggest element seen. */
  method Max(arr: seq<int>) returns (r: Result<int>)
    ensures |arr| == 0 <==> r.Err?
    ensures r.Err? ==> r.error == EmptyError
    ensures r.Ok? ==> r.value in arr && (forall i :: 0 <= i < |arr| ==> arr[i] <= r.value) && r.value == Largest(arr)
  {
    if |arr| == 0 {
      return Err(EmptyError);
    }
    var biggest := arr[0];
    var i := 0;
    while i < |arr|
      invariant 0 <= i <= |arr|
      invariant biggest in arr
      invariant forall j :: 0 <= j < i ==> arr[j] <= biggest
    {
      var elem := arr[i];
      if elem > biggest {
        biggest := elem;
      }
      i := i + 1;
    }
    r := Ok(biggest);
  }

  /** The fields of a composition the table shows. */
  datatype Composition = Composition(id: string, width: nat, height: nat, fps: nat, durationInFrames: nat)

  const SecondColumnLength: nat := 8
  const ThirdColumnLength: nat := 15

  function IdLengths(comps: seq<Composition>): (r: seq<int>)
    ensures |r| == |comps| && forall i :: 0 <= i < |r| ==> r[i] == |comps[i].id|
  {
    seq(|comps|, i requires 0 <= i < |comps| => |comps[i].id|)
  }

  /** The width of the id column: four more than the longest id; no composition at all is an error. */
  function FirstColumnLength(comps: seq<Composition>): (r: Result<nat>)
    ensures |comps| == 0 <==> r.Err?
    ensures r.Err? ==> r.error == EmptyError
    ensures r.Ok? ==> r.value >= 4 && r.value - 4 in IdLengths(comps)
    ensures r.Ok? ==> forall i :: 0 <= i < |comps| ==> |comps[i].id| + 4 <= r.value
  {
    if |comps| == 0 then Err(EmptyError)
    else
      var lengths := IdLengths(comps);
      var m := Largest(lengths);
      assert lengths[0] >= 0;
      Ok(m + 4)
  }

  predicate IsStill(comp: Composition) {
    comp.durationInFrames == 1
  }

  function Dimensions(comp: Composition): string {
    NatToString(comp.width) + "x" + NatToString(comp.height)
  }

  function FpsText(comp: Composition): string {
    if IsStill(comp) then "" else NatToString(comp.fps)
  }

  const StillText := "Still"

  function DurationText(comp: Composition, seconds: (nat, nat) -> string): string {
    if IsStill(comp) then StillText
    else NatToString(comp.durationInFrames) + " (" + seconds(comp.durationInFrames, comp.fps) + " sec)"
  }

  function Header(first: nat): string {
    PadEnd("Composition", first, ' ') + PadEnd("FPS", SecondColumnLength, ' ') +
    PadEnd("Dimensions", ThirdColumnLength, ' ') + "Duration"
  }

  /** The four cells of a row, joined with nothing between them. */
  function Row(comp: Composition, first: nat, seconds: (nat, nat) -> string): string {
    Join([PadEnd(comp.id, first, ' '), PadEnd(FpsText(comp), SecondColumnLength, ' '),
          PadEnd(Dimensions(comp), ThirdColumnLength, ' '), DurationText(comp, seconds)], "")
  }

  function Rows(comps: seq<Composition>, first: nat, seconds: (nat, nat) -> string): (r: seq<string>)
    ensures |r| == |comps| && forall i :: 0 <= i < |r| ==> r[i] == Row(comps[i], first, seconds)
  {
    seq(|comps|, i requires 0 <= i < |comps| => Row(comps[i], first, seconds))
  }

  /** The two `Log.info` calls: the header line and the rows separated by newlines. */
  datatype Table = Table(header: string, body: string)

  function Listing(comps: seq<Composition>, seconds: (nat, nat) -> string): (r: Result<Table>)
    ensures |comps| == 0 <==> r.Err?
    ensures r.Err? ==> r.error == EmptyError
  {
    match FirstColumnLength(comps)
    case Err(e) => Err(e)
    case Ok(first) => Ok(Table(Header(first), Join(Rows(comps, first, seconds), "\n")))
  }

  lemma JoinFourEmpty(a: string, b: string, c: string, d: string)
    ensures Join([a, b, c, d], "") == a + b + c + d
  {
    assert [a, b, c, d][1..] == [b, c, d];
    assert [b, c, d][1..] == [c, d];
    assert [c, d][1..] == [d];
    assert Join([c, d], "") == c + d;
    assert Join([b, c, d], "") == b + (c + d);
    assert Join([a, b, c, d], "") == a + (b + (c + d));
  }

  /**
   * A row is the id padded to the first column, then the frame rate padded to 8, the dimensions
   * padded to 15, and the duration: when the frame rate and dimensions fit their columns, the
   * duration starts at `first + 23`, and the id is followed only by spaces up to `first`.
   */
  lemma RowLayout(comp: Composition, first: nat, seconds: (nat, nat) -> string)
    requires |comp.id| <= first
    requires |FpsText(comp)| <= SecondColumnLength && |Dimensions(comp)| <= ThirdColumnLength
    ensures var row := Row(comp, first, seconds);
      |row| == first + SecondColumnLength + ThirdColumnLength + |DurationText(comp, seconds)| &&
      row[..|comp.id|] == comp.id &&
      (forall i :: |comp.id| <= i < first ==> row[i] == ' ') &&
      row[first..first + |FpsText(comp)|] == FpsText(comp) &&
      row[first + SecondColumnLength..first + SecondColumnLength + |Dimensions(comp)|] == Dimensions(comp) &&
      row[first + SecondColumnLength + ThirdColumnLength..] == DurationText(comp, seconds)
  {
    var d := DurationText(comp, seconds);
    JoinFourEmpty(PadEnd(comp.id, first, ' '), PadEnd(FpsText(comp), SecondColumnLength, ' '),
                  PadEnd(Dimensions(comp), ThirdColumnLength, ' '), d);
    ColumnsLayout(comp.id, FpsText(comp), Dimensions(comp), d, first);
  }

  /** The column layout of a row, on the four texts alone. */
  lemma ColumnsLayout(id: string, fps: string, dims: string, d: string, first: nat)
    requires |id| <= first && |fps| <= SecondColumnLength && |dims| <= ThirdColumnLength
    ensures var row := PadEnd(id, first, ' ') + PadEnd(fps, SecondColumnLength, ' ') +
                       PadEnd(dims, ThirdColumnLength, ' ') + d;
      |row| == first + SecondColumnLength + ThirdColumnLength + |d| &&
      row[..|id|] == id &&
      (forall i :: |id| <= i < first ==> row[i] == ' ') &&
      row[first..first + |fps|] == fps &&
      row[first + SecondColumnLength..first + SecondColumnLength + |dims|] == dims &&
      row[first + SecondColumnLength + ThirdColumnLength..] == d
  {
    var a := PadEnd(id, first, ' ');
    var b := PadEnd(fps, SecondColumnLength, ' ');
    var c := PadEnd(dims, ThirdColumnLength, ' ');
    var row := a + b + c + d;
    assert |a| == first && |b| == SecondColumnLength && |c| == ThirdColumnLength;
    assert row[..first] == a;
    assert row[..|id|] == a[..|id|] by {
      assert row[..|id|] == row[..first][..|id|];
    }
    var start := first + SecondColumnLength;
    assert row[first..start] == b;
    assert row[first..first + |fps|] == b[..|fps|] by {
      assert row[first..first + |fps|] == row[first..start][..|fps|];
    }
    assert row[start..start + ThirdColumnLength] == c;
    assert row[start..start + |dims|] == c[..|dims|] by {
      assert row[start..start + |dims|] == row[start..start + ThirdColumnLength][..|dims|];
    }
    assert row[start + ThirdColumnLength..] == d;
  }

  /** A composition one frame long shows no frame rate and `Still` as its duration. */
  lemma StillRow(comp: Composition, first: nat, seconds: (nat, nat) -> string)
    requires IsStill(comp)
    ensures Row(comp, first, seconds) ==
      PadEnd(comp.id, first, ' ') + Repeat(' ', SecondColumnLength) + PadEnd(Dimensions(comp), ThirdColumnLength, ' ') + StillText
  {
    JoinFourEmpty(PadEnd(comp.id, first, ' '), PadEnd("", SecondColumnLength, ' '),
                  PadEnd(Dimensions(comp), ThirdColumnLength, ' '), StillText);
    assert PadEnd("", SecondColumnLength, ' ') == Repeat(' ', SecondColumnLength);
  }

  /**
   * The header's `Duration` starts at `first + 23`, where every row's duration starts, exactly
   * when `Composition` fits the first column, that is when some id is at least 7 characters long;
   * with shorter ids the header runs past the columns below it.
   */
  lemma HeaderLayout(first: nat)
    ensures var h := Header(first);
      (first >= 11 ==> |h| == first + 31 && h[first + SecondColumnLength + ThirdColumnLength..] == "Duration") &&
      (first < 11 ==> |h| == 42 && h[11 + SecondColumnLength + ThirdColumnLength..] == "Duration")
  {
    var a := PadEnd("Composition", first, ' ');
    var b := PadEnd("FPS", SecondColumnLength, ' ');
    var c := PadEnd("Dimensions", ThirdColumnLength, ' ');
    var h := a + b + c + "Duration";
    assert |b| == SecondColumnLength && |c| == ThirdColumnLength;
    if first >= 11 {
      assert |a| == first;
    } else {
      assert a == "Composition";
    }
    assert h[|a| + |b| + |c|..] == "Duration";
  }

  /** No line break can come out of an id, the numbers or the seconds text. */
  ghost predicate LineFree(comps: seq<Composition>, seconds: (nat, nat) -> string) {
    (forall i :: 0 <= i < |comps| ==> '\n' !in comps[i].id) &&
    (forall d: nat, f: nat :: '\n' !in seconds(d, f))
  }

  lemma DigitsLineFree(n: nat)
    ensures '\n' !in NatToString(n)
  {
    var s := NatToString(n);
    assert forall k :: 0 <= k < |s| ==> IsDigit(s[k]);
  }

  lemma PadEndLineFree(s: string, len: nat)
    requires '\n' !in s
    ensures '\n' !in PadEnd(s, len, ' ')
  {
    var r := PadEnd(s, len, ' ');
    forall k | 0 <= k < |r|
      ensures r[k] != '\n'
    {
      if k < |s| {
        assert r[..|s|][k] == s[k];
      }
    }
  }

  lemma RowLineFree(comp: Composition, first: nat, seconds: (nat, nat) -> string)
    requires '\n' !in comp.id && forall d: nat, f: nat :: '\n' !in seconds(d, f)
    ensures '\n' !in Row(comp, first, seconds)
  {
    var a := PadEnd(comp.id, first, ' ');
    var b := PadEnd(FpsText(comp), SecondColumnLength, ' ');
    var c := PadEnd(Dimensions(comp), ThirdColumnLength, ' ');
    var d := DurationText(comp, seconds);
    PadEndLineFree(comp.id, first);
    assert '\n' !in b by {
      DigitsLineFree(comp.fps);
      PadEndLineFree(FpsText(comp), SecondColumnLength);
    }
    assert '\n' !in c by {
      DigitsLineFree(comp.width);
      DigitsLineFree(comp.height);
      PadEndLineFree(Dimensions(comp), ThirdColumnLength);
    }
    assert '\n' !in d by {
      DigitsLineFree(comp.durationInFrames);
      assert '\n' !in seconds(comp.durationInFrames, comp.fps);
    }
    JoinFourEmpty(a, b, c, d);
  }

  /**
   * The listing of a non-empty set of compositions has one line per composition, in order, each
   * with its id in a column wide enough for every id plus four spaces.
   */
  lemma ListingOneLinePerComposition(comps: seq<Composition>, seconds: (nat, nat) -> string)
    requires |comps| > 0 && LineFree(comps, seconds)
    ensures var first := FirstColumnLength(comps).value;
      Listing(comps, seconds) == Ok(Table(Header(first), Join(Rows(comps, first, seconds), "\n"))) &&
      Split(Listing(comps, seconds).value.body, '\n') == Rows(comps, first, seconds) &&
      forall i :: 0 <= i < |comps| ==> |comps[i].id| + 4 <= first
  {
    var first := FirstColumnLength(comps).value;
    var rows := Rows(comps, first, seconds);
    forall i | 0 <= i < |rows|
      ensures '\n' !in rows[i]
    {
      RowLineFree(comps[i], first, seconds);
    }
    SplitJoin(rows, '\n');
  }
}

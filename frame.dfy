/**
 * The frame of a research-flow image: one coloured header rectangle and one
 * white body rectangle per phase, laid out left to right, one phase width each.
 */
module FrameModel {
  import opened Errors
  import Color

  /** A rectangle's attributes (its markup is these values in a fixed template). */
  datatype Rectangle = Rectangle(x: int, y: int, width: int, height: int,
                                 fill: string := "none", text: string := "", fontSize: int := 16,
                                 textFill: string := "black", stroke: string := "black", strokeWidth: int := 2)

  /** The left edge of column `i`: each column starts where the one before it ends. */
  function ColumnX(i: nat, width: int): int {
    if i == 0 then 0 else ColumnX(i - 1, width) + width
  }

  /** Column `i` starts `i` phase widths from the left edge. */
  lemma {:induction false} ColumnXClosedForm(i: nat, width: int)
    ensures ColumnX(i, width) == i * width
  {
    if i > 0 {
      ColumnXClosedForm(i - 1, width);
      assert (i - 1) * width + width == i * width;
    }
  }

  /** The frame's inputs: the name of each phase, in drawing order, and the three sizes. */
  datatype Frame = Frame(phaseNames: seq<string>, phaseWidth: int, headerHeight: int, bodyHeight: int)
  {
    /** Header `i`: phase `i`'s palette colour, its name in white, along the top edge. */
    function Header(i: nat): Rectangle
      requires i < |phaseNames| && i < Color.Size
    {
      Rectangle(ColumnX(i, phaseWidth), 0, phaseWidth, headerHeight, Color.Palette[i].phaseColor,
                phaseNames[i], 16, "#ffffff", "black", 2)
    }

    /** Body `i`: a white, untitled column directly below header `i`. */
    function Body(i: nat): Rectangle
      requires i < |phaseNames|
    {
      Rectangle(ColumnX(i, phaseWidth), headerHeight, phaseWidth, bodyHeight, "#ffffff")
    }

    /**
     * `generate_headers`: one header per phase, in phase order. The colour
     * lookup for the tenth phase raises, so more than nine phases is an error.
     */
    method GenerateHeaders() returns (r: Result<seq<Rectangle>>)
      ensures r.Err? <==> |phaseNames| > Color.Size
      ensures r.Err? ==> r.error == EnumValueError(Color.Size)
      ensures r.Ok? ==> |r.value| == |phaseNames|
      ensures r.Ok? ==> forall i :: 0 <= i < |r.value| ==> r.value[i] == Header(i)
    {
      var headers: seq<Rectangle> := [];
      var startX := 0;
      for index := 0 to |phaseNames|
        invariant index <= Color.Size
        invariant startX == ColumnX(index, phaseWidth)
        invariant HeadersUpTo(headers, index)
      {
        var fill := Color.PhaseColor(index);
        if fill.Err? {
          Color.PhaseColorTable(index);
          return Err(fill.error);
        }
        var header := Rectangle(startX, 0, phaseWidth, headerHeight, fill.value, phaseNames[index], 16, "#ffffff", "black", 2);
        HeaderIs(index, fill.value);
        HeadersUpToStep(headers, index, header);
        headers := headers + [header];
        startX := startX + phaseWidth;
      }
      return Ok(headers);
    }

    /** `hs` are the headers of the first `n` phases. */
    ghost predicate HeadersUpTo(hs: seq<Rectangle>, n: nat)
      requires n <= |phaseNames| && n <= Color.Size
    {
      |hs| == n && forall i :: 0 <= i < n ==> hs[i] == Header(i)
    }

    lemma HeadersUpToStep(hs: seq<Rectangle>, n: nat, h: Rectangle)
      requires n < |phaseNames| && n < Color.Size
      requires HeadersUpTo(hs, n) && h == Header(n)
      ensures HeadersUpTo(hs + [h], n + 1)
    {
    }

    /** The rectangle the header loop builds for phase `index` is `Header(index)`. */
    lemma HeaderIs(index: nat, fill: string)
      requires index < |phaseNames| && Color.PhaseColor(index) == Ok(fill)
      ensures index < Color.Size
      ensures Header(index) == Rectangle(ColumnX(index, phaseWidth), 0, phaseWidth, headerHeight, fill, phaseNames[index], 16, "#ffffff", "black", 2)
    {
      Color.PhaseColorTable(index);
    }

    /** `generate_bodies`: one body per phase, in phase order. */
    method GenerateBodies() returns (bodies: seq<Rectangle>)
      ensures |bodies| == |phaseNames|
      ensures forall i :: 0 <= i < |bodies| ==> bodies[i] == Body(i)
    {
      bodies := [];
      var startX := 0;
      for index := 0 to |phaseNames|
        invariant startX == ColumnX(index, phaseWidth)
        invariant |bodies| == index
        invariant forall i :: 0 <= i < index ==> bodies[i] == Body(i)
      {
        var body := Rectangle(startX, headerHeight, phaseWidth, bodyHeight, "#ffffff", stroke := "black", strokeWidth := 2);
        bodies := bodies + [body];
        startX := startX + phaseWidth;
      }
    }

    /** `generate_frame`: every header, then every body, each in phase order. */
    method GenerateFrame() returns (r: Result<seq<Rectangle>>)
      ensures r.Err? <==> |phaseNames| > Color.Size
      ensures r.Err? ==> r.error == EnumValueError(Color.Size)
      ensures r.Ok? ==> |r.value| == 2 * |phaseNames|
      ensures r.Ok? ==> forall i :: 0 <= i < |phaseNames| ==> r.value[i] == Header(i)
      ensures r.Ok? ==> forall i :: 0 <= i < |phaseNames| ==> r.value[|phaseNames| + i] == Body(i)
    {
      var headers :- GenerateHeaders();
      var frame: seq<Rectangle> := [];
      for k := 0 to |headers|
        invariant frame == headers[..k]
      {
        frame := frame + [headers[k]];
      }
      var bodies := GenerateBodies();
      assert headers[..|headers|] == headers;
      for k := 0 to |bodies|
        invariant frame == headers + bodies[..k]
      {
        frame := frame + [bodies[k]];
      }
      assert bodies[..|bodies|] == bodies;
      return Ok(frame);
    }
  }

  /** Neighbouring columns meet exactly; the first starts at 0. */
  lemma ColumnsTile(f: Frame, i: nat)
    requires i + 1 < |f.phaseNames|
    ensures f.Body(0).x == 0
    ensures f.Body(i).x + f.Body(i).width == f.Body(i + 1).x
    ensures i + 1 < Color.Size ==> f.Header(i).x + f.Header(i).width == f.Header(i + 1).x
  {
  }

  /** Each body hangs directly below its header, with the same horizontal extent. */
  lemma BodyBelowHeader(f: Frame, i: nat)
    requires i < |f.phaseNames| && i < Color.Size
    ensures f.Body(i).y == f.Header(i).y + f.Header(i).height
    ensures f.Body(i).x == f.Header(i).x && f.Body(i).width == f.Header(i).width
  {
  }

  /** The frame spans exactly `n * phaseWidth` horizontally: the right edge of the last column. */
  lemma {:induction false} FrameWidth(f: Frame)
    requires |f.phaseNames| > 0
    ensures f.Body(|f.phaseNames| - 1).x + f.phaseWidth == |f.phaseNames| * f.phaseWidth
  {
    var n := |f.phaseNames|;
    ColumnXClosedForm(n - 1, f.phaseWidth);
    assert (n - 1) * f.phaseWidth + f.phaseWidth == n * f.phaseWidth;
  }
}

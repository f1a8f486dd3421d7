/** The pitch: its dimensions in whole metres, the line positions derived
    from them, and the line colour. Positions are measured from the back of
    the first endzone and from the first side line. */
module Pitch {
  const PitchWidthMin: int := 37
  const PitchWidthMax: int := 37
  const PitchLengthMin: int := 100
  const PitchLengthMax: int := 100
  const EndzoneDepthMin: int := 18
  const EndzoneDepthMax: int := 18
  const BrickMarkDist: int := 20

  /** Colour components are floating point in the game; they are only
      stored here, so reals stand in for them. */
  const RgbaMaxVal: real := 1.0
  const RgbaAlphaDefault: real := 1.0

  datatype Rgba = Rgba(red: real, green: real, blue: real, alpha: real)

  /** The pitch's line width, a float in the game, is left out. */
  datatype Pitch = Pitch(
    widthM: int, lengthM: int, endzoneDepthM: int, brickMarkDistM: int,
    lineColor: Rgba,
    side1: int, side2: int,
    backEndzone1: int, frontEndzone1: int,
    frontEndzone2: int, backEndzone2: int)

  /** Dimensions the setters accept. */
  predicate DimensionsOk(p: Pitch) {
    && PitchWidthMin <= p.widthM <= PitchWidthMax
    && PitchLengthMin <= p.lengthM <= PitchLengthMax
    && EndzoneDepthMin <= p.endzoneDepthM <= EndzoneDepthMax
  }

  /** The lines of `p` agree with its dimensions: the side lines are the
      width apart, the endzone backs are the length apart and each endzone is
      the endzone depth deep, with the first side line and the first endzone
      back at 0. */
  predicate LinesMatch(p: Pitch) {
    && p.side1 == 0 && p.side2 - p.side1 == p.widthM
    && p.backEndzone1 == 0 && p.backEndzone2 - p.backEndzone1 == p.lengthM
    && p.frontEndzone1 - p.backEndzone1 == p.endzoneDepthM
    && p.backEndzone2 - p.frontEndzone2 == p.endzoneDepthM
  }

  /** calculate_pitch_positions: the line positions derived from the
      dimensions; nothing else changes. */
  function CalculatePitchPositions(p: Pitch): (r: Pitch)
    ensures LinesMatch(r)
    ensures r.(side1 := p.side1, side2 := p.side2, backEndzone1 := p.backEndzone1,
               frontEndzone1 := p.frontEndzone1, frontEndzone2 := p.frontEndzone2,
               backEndzone2 := p.backEndzone2) == p
  {
    var side1 := 0;
    var back1 := 0;
    p.(side1 := side1, side2 := side1 + p.widthM,
       backEndzone1 := back1, frontEndzone1 := back1 + p.endzoneDepthM,
       backEndzone2 := back1 + p.lengthM, frontEndzone2 := back1 + p.lengthM - p.endzoneDepthM)
  }

  /** On a pitch of accepted dimensions the lines run in order along its
      length: the two endzones do not meet, and between them lies a playing
      field of length minus twice the depth. */
  lemma LinesInOrder(p: Pitch)
    requires DimensionsOk(p) && LinesMatch(p)
    ensures p.backEndzone1 < p.frontEndzone1 < p.frontEndzone2 < p.backEndzone2
    ensures p.frontEndzone2 - p.frontEndzone1 == p.lengthM - 2 * p.endzoneDepthM
    ensures p.side1 < p.side2
  {
  }

  /** set_pitch_width: the game stops on a width outside the allowed range,
      so callers must keep to it; only the width changes. */
  function SetPitchWidth(p: Pitch, width: int): (r: Pitch)
    requires PitchWidthMin <= width <= PitchWidthMax
    ensures r.widthM == width && r.(widthM := p.widthM) == p
  {
    p.(widthM := width)
  }

  /** set_pitch_length: as set_pitch_width, for the length. */
  function SetPitchLength(p: Pitch, length: int): (r: Pitch)
    requires PitchLengthMin <= length <= PitchLengthMax
    ensures r.lengthM == length && r.(lengthM := p.lengthM) == p
  {
    p.(lengthM := length)
  }

  /** set_endzone_depth: as set_pitch_width, for the endzone depth. */
  function SetEndzoneDepth(p: Pitch, depth: int): (r: Pitch)
    requires EndzoneDepthMin <= depth <= EndzoneDepthMax
    ensures r.endzoneDepthM == depth && r.(endzoneDepthM := p.endzoneDepthM) == p
  {
    p.(endzoneDepthM := depth)
  }

  /** The setters keep a pitch within the accepted dimensions. */
  lemma SettersKeepDimensions(p: Pitch, width: int, length: int, depth: int)
    requires DimensionsOk(p)
    requires PitchWidthMin <= width <= PitchWidthMax
    requires PitchLengthMin <= length <= PitchLengthMax
    requires EndzoneDepthMin <= depth <= EndzoneDepthMax
    ensures DimensionsOk(SetPitchWidth(p, width))
    ensures DimensionsOk(SetPitchLength(p, length))
    ensures DimensionsOk(SetEndzoneDepth(p, depth))
  {
  }

  /** set_pitch_line_color: the three colour components are stored and the
      alpha argument is ignored in favour of the default alpha. */
  function SetPitchLineColor(p: Pitch, red: real, green: real, blue: real, alpha: real): (r: Pitch)
    ensures r.lineColor == Rgba(red, green, blue, RgbaAlphaDefault)
    ensures r.(lineColor := p.lineColor) == p
  {
    p.(lineColor := Rgba(red, green, blue, RgbaAlphaDefault))
  }

  /** The alpha passed to set_pitch_line_color makes no difference. */
  lemma LineAlphaIgnored(p: Pitch, red: real, green: real, blue: real, a1: real, a2: real)
    ensures SetPitchLineColor(p, red, green, blue, a1) == SetPitchLineColor(p, red, green, blue, a2)
  {
  }

  /** init_pitch: the smallest allowed dimensions, the standard brick mark
      distance, white lines, and the line positions worked out from them. */
  function InitPitch(p: Pitch): (r: Pitch)
    ensures DimensionsOk(r) && LinesMatch(r)
    ensures r.widthM == PitchWidthMin && r.lengthM == PitchLengthMin && r.endzoneDepthM == EndzoneDepthMin
    ensures r.brickMarkDistM == BrickMarkDist
    ensures r.lineColor == Rgba(RgbaMaxVal, RgbaMaxVal, RgbaMaxVal, RgbaAlphaDefault)
  {
    CalculatePitchPositions(p.(lengthM := PitchLengthMin, widthM := PitchWidthMin,
                               endzoneDepthM := EndzoneDepthMin, brickMarkDistM := BrickMarkDist,
                               lineColor := Rgba(RgbaMaxVal, RgbaMaxVal, RgbaMaxVal, RgbaAlphaDefault)))
  }

  /** The standard pitch: side lines at 0 and 37, endzone fronts at 18 and
      82, and the far endzone back at 100. */
  lemma InitPitchLines(p: Pitch)
    ensures var r := InitPitch(p);
      && r.side2 == 37 && r.frontEndzone1 == 18 && r.frontEndzone2 == 82 && r.backEndzone2 == 100
      && r.frontEndzone1 < r.frontEndzone2
  {
  }
}

/** Sprite-sheet animations: how many frames a row of the sheet holds, and
    how a player's frame counter steps through them. C's `/` and `%`
    truncate toward zero, and are written out as such. */
module Animation {
  import opened Wrappers
  import opened Players
  import opened EntityGraphic

  /** C's integer division: the quotient truncated toward zero. */
  function CDiv(a: int, b: int): (q: int)
    requires b != 0
    ensures a >= 0 && b > 0 ==> q == a / b
  {
    if a >= 0 && b > 0 then a / b
    else if a < 0 && b > 0 then -((-a) / b)
    else if a >= 0 then -(a / (-b))
    else (-a) / (-b)
  }

  /** C's `%`: the remainder has the sign of the dividend. */
  function CRem(a: int, b: int): (r: int)
    requires b != 0
    ensures a == b * CDiv(a, b) + r
    ensures a >= 0 && b > 0 ==> r == a % b && 0 <= r < b
    ensures a < 0 && b > 0 ==> -b < r <= 0
  {
    a - b * CDiv(a, b)
  }

  datatype AnimationCode = AnimationCreateOk | AnimationCreateFileLoadFail | AnimationCreatePostLoadFail

  /** The C return code. */
  function AnimationCodeValue(c: AnimationCode): (v: int)
    ensures 0 <= v <= 2 && (v == 0 <==> c == AnimationCreateOk)
  {
    match c
    case AnimationCreateOk => 0
    case AnimationCreateFileLoadFail => 1
    case AnimationCreatePostLoadFail => 2
  }

  datatype Animation = Animation(spriteSheet: Graphic, numFramesPerRow: int, frameWidth: int, frameHeight: int)

  /** One animation per animation choice. */
  datatype AnimationHandler = AnimationHandler(running: Animation, standing: Animation, jumping: Animation)

  function AnimationOf(h: AnimationHandler, choice: AnimationChoice): Animation {
    match choice
    case RunningAnimation => h.running
    case StandingAnimation => h.standing
    case JumpingAnimation => h.jumping
  }

  /** create_animation, given the outcome of creating its sprite sheet: a
      sheet that did not load is FILE_LOAD_FAIL and any other failure
      POST_LOAD_FAIL, and neither yields an animation; otherwise the frame
      size is as given and a row holds as many whole frames as fit the
      sheet's width. A frame width of 0 is a division by zero in C. */
  function CreateAnimation(sheet: (SpriteCode, Graphic), frameWidth: int, frameHeight: int)
    : (r: (AnimationCode, Option<Animation>))
    requires sheet.0 == LoadSpriteOk ==> sheet.1.dims.Some? && frameWidth != 0
    ensures r.0 == AnimationCreateFileLoadFail <==> sheet.0 == LoadSpriteLoadFail
    ensures r.0 == AnimationCreatePostLoadFail <==> sheet.0 == LoadSpriteConvertFail
    ensures r.1.Some? <==> r.0 == AnimationCreateOk
    ensures r.1.Some? ==>
              && r.1.value.spriteSheet == sheet.1
              && r.1.value.frameWidth == frameWidth && r.1.value.frameHeight == frameHeight
              && r.1.value.numFramesPerRow == CDiv(sheet.1.dims.value.width, frameWidth)
  {
    if sheet.0 != LoadSpriteOk then
      (if sheet.0 == LoadSpriteLoadFail then AnimationCreateFileLoadFail else AnimationCreatePostLoadFail, None)
    else
      (AnimationCreateOk,
       Some(Animation(sheet.1, CDiv(sheet.1.dims.value.width, frameWidth), frameWidth, frameHeight)))
  }

  /** For a sheet and frame of positive width, a row holds the frames that
      fit and not one more. */
  lemma FramesFitRow(sheet: (SpriteCode, Graphic), frameWidth: int, frameHeight: int)
    requires sheet.0 == LoadSpriteOk && sheet.1.dims.Some? && frameWidth > 0
    requires sheet.1.dims.value.width >= 0
    ensures var n := CreateAnimation(sheet, frameWidth, frameHeight).1.value.numFramesPerRow;
      n >= 0 && n * frameWidth <= sheet.1.dims.value.width < (n + 1) * frameWidth
  {
    var w := sheet.1.dims.value.width;
    assert w == frameWidth * (w / frameWidth) + w % frameWidth;
  }

  /** increment_animation_frame_counter: the frame counter moves on by one
      and wraps at the number of frames in a row of the player's current
      animation; nothing else about the player changes. */
  function IncrementFrame(p: Player, h: AnimationHandler): (r: Player)
    requires AnimationOf(h, p.animation).numFramesPerRow != 0
    ensures r.(currFrame := p.currFrame) == p
    ensures var n := AnimationOf(h, p.animation).numFramesPerRow;
      r.currFrame == CRem(p.currFrame + 1, n)
    ensures var n := AnimationOf(h, p.animation).numFramesPerRow;
      0 <= p.currFrame && 0 < n ==> 0 <= r.currFrame < n
  {
    p.(currFrame := CRem(p.currFrame + 1, AnimationOf(h, p.animation).numFramesPerRow))
  }

  /** `k` frame increments: from a frame in range, they land `k` frames on,
      modulo the row length. */
  function IncrementFrames(p: Player, h: AnimationHandler, k: nat): (r: Player)
    requires AnimationOf(h, p.animation).numFramesPerRow != 0
    ensures r.animation == p.animation
    ensures var n := AnimationOf(h, p.animation).numFramesPerRow;
      0 < n && 0 <= p.currFrame < n ==> r == p.(currFrame := (p.currFrame + k) % n)
    decreases k
  {
    if k == 0 then p
    else
      var n := AnimationOf(h, p.animation).numFramesPerRow;
      var q := IncrementFrame(p, h);
      var r := IncrementFrames(q, h, k - 1);
      assert 0 < n && 0 <= p.currFrame < n ==> r == p.(currFrame := (p.currFrame + k) % n) by {
        if 0 < n && 0 <= p.currFrame < n {
          assert q.animation == p.animation && q.currFrame == (p.currFrame + 1) % n;
          ModAddOne(p.currFrame, k, n);
          assert q.(currFrame := (q.currFrame + (k - 1)) % n) == p.(currFrame := (p.currFrame + k) % n);
        }
      }
      r
  }

  lemma ModAddOne(f: int, k: nat, n: int)
    requires 0 < n && 0 <= f && k > 0
    ensures ((f + 1) % n + (k - 1)) % n == (f + k) % n
  {
    var a := (f + 1) % n;
    var q := (f + 1) / n;
    var b := (a + (k - 1)) % n;
    var c := (a + (k - 1)) / n;
    assert f + 1 == n * q + a;
    assert a + (k - 1) == n * c + b;
    assert f + k == n * (q + c) + b;
    ModUnique(f + k, q + c, b, n);
  }

  /** Division with remainder has one answer. */
  lemma ModUnique(x: int, q: int, r: int, n: int)
    requires 0 < n && 0 <= r < n && x == n * q + r
    ensures x % n == r
  {
    var q0 := x / n;
    var r0 := x % n;
    assert n * q0 + r0 == n * q + r;
    assert n * (q0 - q) == r - r0;
    if q0 - q >= 1 {
      MulAtLeast(n, q0 - q);
    } else if q - q0 >= 1 {
      MulAtLeast(n, q - q0);
    }
  }

  lemma MulAtLeast(n: int, d: int)
    requires 0 < n && 1 <= d
    ensures n * d >= n
  {
  }

  /** A full row of increments brings the animation back to the frame it
      started on. */
  lemma {:induction false} FullRowReturns(p: Player, h: AnimationHandler)
    requires 0 < AnimationOf(h, p.animation).numFramesPerRow
    requires 0 <= p.currFrame < AnimationOf(h, p.animation).numFramesPerRow
    ensures IncrementFrames(p, h, AnimationOf(h, p.animation).numFramesPerRow as nat) == p
  {
    var n := AnimationOf(h, p.animation).numFramesPerRow;
    assert IncrementFrames(p, h, n as nat) == p.(currFrame := (p.currFrame + n) % n);
    ModUnique(p.currFrame + n, 1, p.currFrame, n);
  }
}

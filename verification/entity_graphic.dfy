/** Entity graphics: an image shared by several entities, freed when the
    last entity lets go of it. Loading the image and making a texture of it
    are outside the model; their outcomes are given. */
module EntityGraphic {
  import opened Wrappers

  datatype SpriteCode = LoadSpriteOk | LoadSpriteLoadFail | LoadSpriteConvertFail

  /** The C return code. */
  function SpriteCodeValue(c: SpriteCode): (v: int)
    ensures 0 <= v <= 2 && (v == 0 <==> c == LoadSpriteOk)
  {
    match c
    case LoadSpriteOk => 0
    case LoadSpriteLoadFail => 1
    case LoadSpriteConvertFail => 2
  }

  /** An image's width and height. */
  datatype Dims = Dims(width: int, height: int)

  /** `dims` is None when the image never loaded: the C then leaves width
      and height unset. */
  datatype Graphic = Graphic(dims: Option<Dims>, refCount: int)

  /** load_sprite_from_file. `image` is what the image loader gave (None
      when it failed) and `textureOk` whether the texture conversion
      succeeded. The size is taken from the image even when the conversion
      then fails. */
  function LoadSprite(image: Option<Dims>, textureOk: bool): (r: (SpriteCode, Option<Dims>))
    ensures r.1 == image
    ensures r.0 == LoadSpriteLoadFail <==> image.None?
    ensures r.0 == LoadSpriteConvertFail <==> image.Some? && !textureOk
    ensures r.0 == LoadSpriteOk <==> image.Some? && textureOk
  {
    match image
    case None => (LoadSpriteLoadFail, None)
    case Some(d) => if textureOk then (LoadSpriteOk, Some(d)) else (LoadSpriteConvertFail, Some(d))
  }

  /** create_entity_graphic: the graphic is made whatever the load gives,
      with no references yet; the load's code is returned. */
  function CreateEntityGraphic(image: Option<Dims>, textureOk: bool): (r: (SpriteCode, Graphic))
    ensures r.1.refCount == 0
    ensures r.0 == LoadSprite(image, textureOk).0 && r.1.dims == image
  {
    var (code, dims) := LoadSprite(image, textureOk);
    (code, Graphic(dims, 0))
  }

  /** add_reference_to_graphic. */
  function AddReference(g: Graphic): (r: Graphic)
    ensures r.refCount == g.refCount + 1 && r.dims == g.dims
  {
    g.(refCount := g.refCount + 1)
  }

  /** remove_reference_to_graphic: one reference fewer; the graphic is
      destroyed, and true returned, exactly when that leaves none. From a
      count of 0 the count goes to -1 and the graphic survives. */
  function RemoveReference(g: Graphic): (r: (Option<Graphic>, bool))
    ensures r.1 <==> g.refCount == 1
    ensures r.0.None? <==> r.1
    ensures r.0.Some? ==> r.0.value == g.(refCount := g.refCount - 1)
  {
    var h := g.(refCount := g.refCount - 1);
    if h.refCount == 0 then (None, true) else (Some(h), false)
  }

  /** Taking a reference and dropping it again leaves the graphic as it
      was, unless it had no references, in which case it is destroyed. */
  lemma AddThenRemove(g: Graphic)
    ensures RemoveReference(AddReference(g)) ==
            if g.refCount == 0 then (None, true) else (Some(g), false)
  {
  }

  /** `m` references dropped one after another; None once the graphic is
      destroyed. */
  function RemoveReferences(g: Graphic, m: nat): Option<Graphic>
    requires m <= g.refCount
    decreases m
  {
    if m == 0 then Some(g)
    else match RemoveReference(g)
      case (None, _) => None
      case (Some(h), _) => RemoveReferences(h, m - 1)
  }

  /** A graphic with `g.refCount` references survives every release but the
      last, and the last one destroys it. */
  lemma {:induction false} LastReleaseDestroys(g: Graphic, m: nat)
    requires m <= g.refCount
    ensures RemoveReferences(g, m) ==
            if m == g.refCount && m > 0 then None else Some(g.(refCount := g.refCount - m))
    decreases m
  {
    if m > 0 {
      if g.refCount > 1 {
        LastReleaseDestroys(g.(refCount := g.refCount - 1), m - 1);
      }
    }
  }

  /** `k` references taken one after another. */
  function AddReferences(g: Graphic, k: nat): (r: Graphic)
    ensures r == g.(refCount := g.refCount + k)
    decreases k
  {
    if k == 0 then g else AddReferences(AddReference(g), k - 1)
  }

  /** `k` references taken on a fresh graphic are all released by the
      `k`-th drop and no earlier one. */
  lemma SharedGraphicLifetime(image: Option<Dims>, textureOk: bool, k: nat, m: nat)
    requires 0 < m <= k
    ensures RemoveReferences(AddReferences(CreateEntityGraphic(image, textureOk).1, k), m).None? <==> m == k
  {
    LastReleaseDestroys(AddReferences(CreateEntityGraphic(image, textureOk).1, k), m);
  }
}

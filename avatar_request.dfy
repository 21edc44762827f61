/**
 * The avatar-resolution policy of AvatarRequest: load the local resource named by the
 * descriptor URI, and when that yields no bitmap, synthesise a letter tile or the
 * default-person avatar for the fallback URI, the default avatar URI or the descriptor URI.
 * Pixels are not modelled: a synthesised image is described by its size, its background
 * colour and the placement of what is drawn on it.
 */
module AvatarRequest {
  import opened Wrappers
  import opened JavaLang

  /** ExifInterface.ORIENTATION_NORMAL. */
  const OrientationNormal: int := 1

  /** SCALING_FACTOR, the float 1.33f, taken as the real 1.33. */
  const ScalingFactor: real := 1.33

  /** The avatar types AvatarUriUtil.getAvatarType reports that the policy tests for. */
  datatype AvatarType = LocalResourceType | LetterTileType | OtherType

  /**
   * What the URI helpers UriUtil and AvatarUriUtil answer, and String.toUpperCase;
   * those classes are not part of this model.
   */
  datatype Collaborators<!Uri> = Collaborators(
    isLocalResourceUri: Uri -> bool,
    avatarType: Uri -> AvatarType,
    primaryUri: Uri -> Uri,
    fallbackUri: Uri -> Option<Uri>,
    name: Uri -> string,
    identifier: Uri -> string,
    defaultBackgroundAvatar: Uri,
    toUpperCase: string -> string)

  /** Values the renderers read from the application's resources. */
  datatype AvatarResources = AvatarResources(
    contactColors: bool,       // R.bool.contact_colors
    paletteLength: nat,        // the number of R.array.letter_tile_colors
    letterToTileRatio: real,   // R.dimen.letter_to_tile_ratio
    personWidth: int,          // intrinsic width of R.drawable.ic_person_light
    personHeight: int)         // intrinsic height of R.drawable.ic_person_light

  datatype Descriptor<Uri> = Descriptor(uri: Uri, desiredWidth: int, desiredHeight: int)

  /** The thread a request runs on; loading on the main thread is a programming error. */
  datatype ThreadContext = MainThread | WorkerThread

  /** How the superclass load (UriImageRequest.loadMediaInternal) ended. */
  datatype SuperLoad<Bitmap> =
    | Returned(bitmap: Option<Bitmap>, orientation: int)
    | ThrewException   // any java.lang.Exception, including a null resource dereferenced
    | ThrewError       // a java.lang.Error such as OutOfMemoryError, which `catch (Exception)` does not catch

  datatype Failure =
    | ArithmeticFailure      // `%` by a palette of length 0
    | StringIndexFailure     // substring(0, 1) of an empty name
    | AssertionFailure       // Assert.isTrue on a primary URI that is not a local resource
    | FatalError             // an Error escaping the superclass load

  datatype Color = PrimaryColor | PaletteColor(index: nat)

  /** Where the default-person glyph is drawn: the canvas offset and the glyph's integer bounds. */
  datatype GlyphPlacement = GlyphPlacement(offsetX: real, offsetY: real, right: int, bottom: int)

  /** An avatar drawn by one of the two renderers. */
  datatype Rendered =
    | LetterTile(width: int, height: int, background: Color, letter: string,
                 halfWidth: int, halfHeight: int, textSize: real)
    | DefaultPerson(width: int, height: int, background: Color, glyph: GlyphPlacement)

  datatype Image<Bitmap> = Loaded(bitmap: Bitmap) | Synthesized(rendered: Rendered)

  datatype ImageResource<Key, Bitmap> = ImageResource(key: Key, image: Image<Bitmap>, orientation: int)

  /**
   * The media caches a request can name: the avatar cache (BugleMediaCacheManager.AVATAR_IMAGE_CACHE)
   * or the cache of some other request kind, by its id.
   */
  datatype CacheNamespace = AvatarImageCache | OtherCache(id: int)

  /** getCacheId: every avatar request, whatever it describes, lives in the avatar cache. */
  function CacheId<Uri>(d: Descriptor<Uri>): (c: CacheNamespace)
    ensures c == AvatarImageCache
  {
    AvatarImageCache
  }

  /** The URI getInputStreamForResource opens: the descriptor URI itself, or its primary URI. */
  function StreamUri<Uri>(h: Collaborators<Uri>, uri: Uri): (r: Result<Uri, Failure>)
    ensures r.Success? ==> h.isLocalResourceUri(r.value)
    ensures h.isLocalResourceUri(uri) ==> r == Success(uri)
    ensures !h.isLocalResourceUri(uri) ==>
      (r.Success? <==> h.isLocalResourceUri(h.primaryUri(uri))) &&
      (r.Success? ==> r.value == h.primaryUri(uri))
  {
    if h.isLocalResourceUri(uri) then Success(uri)
    else
      var primary := h.primaryUri(uri);
      if h.isLocalResourceUri(primary) then Success(primary) else Failure(AssertionFailure)
  }

  /** Whether the descriptor names a local resource, which the policy then tries to load. */
  predicate IsLocalResource<Uri>(h: Collaborators<Uri>, uri: Uri) {
    h.isLocalResourceUri(uri) || h.avatarType(uri) == LocalResourceType
  }

  /** The URI synthesised from after a failed local load: the fallback URI, else the default avatar. */
  function FallbackOrDefault<Uri>(h: Collaborators<Uri>, uri: Uri): Uri {
    match h.fallbackUri(uri)
    case Some(fallback) => fallback
    case None => h.defaultBackgroundAvatar
  }

  // ---------------------------------------------------------------------------
  // Background colour

  /** The palette index `Math.abs(hash) % length` as the source computes it. */
  function PaletteIndexAsWritten(hash: int32, length: nat): (r: Result<int, Failure>)
    ensures r.Failure? <==> length == 0
    ensures r.Success? ==> -(length as int) < r.value < length
    ensures r.Success? && hash != MinValue ==> 0 <= r.value
  {
    if length == 0 then Failure(ArithmeticFailure) else Success(Rem(Abs(hash) as int, length))
  }

  /** Math.abs(Integer.MIN_VALUE) stays negative, so its index lies outside the palette. */
  lemma PaletteIndexNegativeForMinValue(length: nat)
    requires length > 0 && TwoTo31 % length != 0
    ensures PaletteIndexAsWritten(MinValue, length).Success?
    ensures PaletteIndexAsWritten(MinValue, length).value < 0
  {
  }

  /** An identifier whose String.hashCode is Integer.MIN_VALUE. */
  lemma MinValueIdentifier()
    ensures HashCode("polygenelubricants") == MinValue
  {
    var s := "polygenelubricants";
    assert HashWord(s[..1]) == 112;
    assert s[..2][..1] == s[..1];
    assert HashWord(s[..2]) == 3583;
    assert s[..3][..2] == s[..2];
    assert HashWord(s[..3]) == 111181;
    assert s[..4][..3] == s[..3];
    assert HashWord(s[..4]) == 3446732;
    assert s[..5][..4] == s[..4];
    assert HashWord(s[..5]) == 106848795;
    assert s[..6][..5] == s[..5];
    assert HashWord(s[..6]) == 3312312746;
    assert s[..7][..6] == s[..6];
    assert HashWord(s[..7]) == 3897447428;
    assert s[..8][..7] == s[..7];
    assert HashWord(s[..8]) == 561786081;
    assert s[..9][..8] == s[..8];
    assert HashWord(s[..9]) == 235499435;
    assert s[..10][..9] == s[..9];
    assert HashWord(s[..10]) == 3005515306;
    assert s[..11][..10] == s[..10];
    assert HashWord(s[..11]) == 2976661368;
    assert s[..12][..11] == s[..11];
    assert HashWord(s[..12]) == 2082189306;
    assert s[..13][..12] == s[..12];
    assert HashWord(s[..13]) == 123359151;
    assert s[..14][..13] == s[..13];
    assert HashWord(s[..14]) == 3824133780;
    assert s[..15][..14] == s[..14];
    assert HashWord(s[..15]) == 2584030285;
    assert s[..16][..15] == s[..15];
    assert HashWord(s[..16]) == 2795527617;
    assert s[..17][..16] == s[..16];
    assert HashWord(s[..17]) == 762010323;
    assert s[..17] == s[..18][..17];
    assert s[..18] == s;
    assert HashWord(s) == 2147483648;
  }

  /** The palette index with the evidently intended range: always inside a non-empty palette. */
  function PaletteIndex(hash: int32, length: nat): (r: Result<nat, Failure>)
    ensures r.Failure? <==> length == 0
    ensures r.Success? ==> r.value < length
    ensures hash != MinValue ==>
      PaletteIndexAsWritten(hash, length) == (if length == 0 then Failure(ArithmeticFailure) else Success(r.value as int))
  {
    if length == 0 then Failure(ArithmeticFailure) else Success(IntAbs(hash as int) % length)
  }

  /** getBackgroundColor: a palette colour chosen by the identifier's hash, or the primary colour. */
  function BackgroundColor(identifier: string, res: AvatarResources): (r: Result<Color, Failure>)
    ensures identifier == [] || !res.contactColors ==> r == Success(PrimaryColor)
    ensures identifier != [] && res.contactColors ==>
      (r.Failure? <==> res.paletteLength == 0) &&
      (r.Success? ==> r.value.PaletteColor? && r.value.index < res.paletteLength)
    ensures identifier != [] && res.contactColors && res.paletteLength > 0 &&
            HashCode(identifier) != MinValue ==>
      r.Success? && r.value.index as int == PaletteIndexAsWritten(HashCode(identifier), res.paletteLength).value
    ensures identifier != [] && res.contactColors && res.paletteLength > 0 &&
            HashCode(identifier) == MinValue ==>
      r.Success? && r.value.index == TwoTo31 % res.paletteLength
  {
    if identifier != [] && res.contactColors then
      match PaletteIndex(HashCode(identifier), res.paletteLength)
      case Success(index) => Success(PaletteColor(index))
      case Failure(e) => Failure(e)
    else
      Success(PrimaryColor)
  }

  // ---------------------------------------------------------------------------
  // Renderers

  function Min(a: int, b: int): int {
    if a <= b then a else b
  }

  function MinReal(a: real, b: real): real {
    if a <= b then a else b
  }

  /** renderDefaultAvatar: the person glyph, scaled by 1.33 but capped to the target box, centred. */
  function RenderDefaultAvatar(identifier: string, width: int, height: int, res: AvatarResources)
    : (r: Result<Rendered, Failure>)
    ensures r.Success? ==> r.value.DefaultPerson? && r.value.width == width && r.value.height == height
    ensures r.Success? <==> BackgroundColor(identifier, res).Success?
    ensures r.Failure? ==> r == Failure(BackgroundColor(identifier, res).error)
    ensures r.Success? ==> r.value.background == BackgroundColor(identifier, res).value
    ensures r.Success? ==> r.value.glyph.offsetX >= 0.0 && r.value.glyph.offsetY >= 0.0
    ensures r.Success? ==> r.value.glyph.right <= width && r.value.glyph.bottom <= height
    ensures r.Success? && res.personWidth >= 0 && width >= 0 ==> r.value.glyph.right >= 0
    ensures r.Success? && res.personHeight >= 0 && height >= 0 ==> r.value.glyph.bottom >= 0
    ensures r.Success? && res.personWidth as real * ScalingFactor <= width as real ==>
      r.value.glyph.right == Truncate(res.personWidth as real * ScalingFactor)
    ensures r.Success? && res.personHeight as real * ScalingFactor <= height as real ==>
      r.value.glyph.bottom == Truncate(res.personHeight as real * ScalingFactor)
  {
    match BackgroundColor(identifier, res)
    case Failure(e) => Failure(e)
    case Success(background) =>
      var dstWidth := MinReal(res.personWidth as real * ScalingFactor, width as real);
      var dstHeight := MinReal(res.personHeight as real * ScalingFactor, height as real);
      var glyph := GlyphPlacement((width as real - dstWidth) / 2.0, (height as real - dstHeight) / 2.0,
                                  Truncate(dstWidth), Truncate(dstHeight));
      Success(DefaultPerson(width, height, background, glyph))
  }

  /** renderLetterTile: the upper-cased first character of the name, centred on the tile. */
  function RenderLetterTile(upperCase: string -> string, name: string, identifier: string,
                            width: int, height: int, res: AvatarResources)
    : (r: Result<Rendered, Failure>)
    ensures r.Success? ==> r.value.LetterTile? && r.value.width == width && r.value.height == height
    ensures r.Success? <==> BackgroundColor(identifier, res).Success? && name != []
    ensures BackgroundColor(identifier, res).Success? && name == [] ==> r == Failure(StringIndexFailure)
    ensures BackgroundColor(identifier, res).Failure? ==> r == Failure(BackgroundColor(identifier, res).error)
    ensures r.Success? ==> r.value.background == BackgroundColor(identifier, res).value
    ensures r.Success? ==> r.value.letter == upperCase(name[..1])
    ensures r.Success? ==> r.value.textSize == res.letterToTileRatio * Min(width, height) as real
    ensures r.Success? && width >= 0 ==> 2 * r.value.halfWidth <= width <= 2 * r.value.halfWidth + 1
    ensures r.Success? && height >= 0 ==> 2 * r.value.halfHeight <= height <= 2 * r.value.halfHeight + 1
  {
    match BackgroundColor(identifier, res)
    case Failure(e) => Failure(e)
    case Success(background) =>
      if name == [] then Failure(StringIndexFailure)
      else
        Success(LetterTile(width, height, background, upperCase(name[..1]),
                           Quot(width, 2), Quot(height, 2),
                           res.letterToTileRatio * Min(width, height) as real))
  }

  /**
   * The synthesis step for a generated URI: the letter-tile renderer exactly when the URI is a
   * letter-tile URI, the default avatar otherwise; the colour always comes from the descriptor's
   * own URI.
   */
  function Synthesize<Uri>(h: Collaborators<Uri>, res: AvatarResources, d: Descriptor<Uri>, generated: Uri)
    : (r: Result<Rendered, Failure>)
    ensures r.Success? <==>
      BackgroundColor(h.identifier(d.uri), res).Success? &&
      (h.avatarType(generated) == LetterTileType ==> h.name(generated) != [])
    ensures BackgroundColor(h.identifier(d.uri), res).Failure? ==>
      r == Failure(BackgroundColor(h.identifier(d.uri), res).error)
    ensures BackgroundColor(h.identifier(d.uri), res).Success? &&
            h.avatarType(generated) == LetterTileType && h.name(generated) == [] ==>
      r == Failure(StringIndexFailure)
    ensures r.Success? ==> (r.value.LetterTile? <==> h.avatarType(generated) == LetterTileType)
    ensures r.Success? ==> r.value.width == d.desiredWidth && r.value.height == d.desiredHeight
    ensures r.Success? ==>
      BackgroundColor(h.identifier(d.uri), res).Success? &&
      r.value.background == BackgroundColor(h.identifier(d.uri), res).value
    ensures r.Success? && r.value.LetterTile? ==>
      h.name(generated) != [] && r.value.letter == h.toUpperCase(h.name(generated)[..1])
  {
    if h.avatarType(generated) == LetterTileType then
      RenderLetterTile(h.toUpperCase, h.name(generated), h.identifier(d.uri), d.desiredWidth, d.desiredHeight, res)
    else
      RenderDefaultAvatar(h.identifier(d.uri), d.desiredWidth, d.desiredHeight, res)
  }

  /** Keys a rendered image with the request key and an orientation. */
  function Attach<Key, Bitmap>(key: Key, rendered: Result<Rendered, Failure>, orientation: int)
    : (r: Result<ImageResource<Key, Bitmap>, Failure>)
  {
    match rendered
    case Success(i) => Success(ImageResource(key, Synthesized(i), orientation))
    case Failure(e) => Failure(e)
  }

  // ---------------------------------------------------------------------------
  // The fallback chain

  /** loadMediaInternal: local resource first, then a synthesised avatar. */
  method LoadMediaInternal<Uri, Key, Bitmap>(ctx: ThreadContext, h: Collaborators<Uri>, res: AvatarResources,
                                             d: Descriptor<Uri>, key: Key, superLoad: SuperLoad<Bitmap>)
    returns (r: Result<ImageResource<Key, Bitmap>, Failure>)
    requires ctx == WorkerThread
    // A descriptor that is no local resource is never loaded: its own URI is synthesised from.
    ensures !IsLocalResource(h, d.uri) ==>
      r == Attach(key, Synthesize(h, res, d, d.uri), OrientationNormal)
    // A bitmap loaded from the local resource is returned as it is, with its orientation.
    ensures IsLocalResource(h, d.uri) && superLoad.Returned? && superLoad.bitmap.Some? ==>
      r == Success(ImageResource(key, Loaded(superLoad.bitmap.value), superLoad.orientation))
    // A load that returned no bitmap falls back too, but keeps the orientation it reported.
    ensures IsLocalResource(h, d.uri) && superLoad.Returned? && superLoad.bitmap.None? ==>
      r == Attach(key, Synthesize(h, res, d, FallbackOrDefault(h, d.uri)), superLoad.orientation)
    // An exception is swallowed: fallback URI or default avatar, orientation NORMAL.
    ensures IsLocalResource(h, d.uri) && superLoad.ThrewException? ==>
      r == Attach(key, Synthesize(h, res, d, FallbackOrDefault(h, d.uri)), OrientationNormal)
    // An Error is not caught.
    ensures IsLocalResource(h, d.uri) && superLoad.ThrewError? ==> r == Failure(FatalError)
    ensures r.Success? ==> r.value.key == key
  {
    var bitmap: Option<Bitmap> := None;
    var orientation := OrientationNormal;
    var isLocalResourceUri := h.isLocalResourceUri(d.uri) || h.avatarType(d.uri) == LocalResourceType;
    if isLocalResourceUri {
      match superLoad
      case Returned(b, o) =>
        bitmap := b;
        orientation := o;
      case ThrewException =>
      case ThrewError =>
        return Failure(FatalError);
    }

    var width := d.desiredWidth;
    var height := d.desiredHeight;
    if bitmap.None? {
      var generatedUri := d.uri;
      if isLocalResourceUri {
        var fallback := h.fallbackUri(d.uri);
        if fallback.None? {
          generatedUri := h.defaultBackgroundAvatar;
        } else {
          generatedUri := fallback.value;
        }
      }
      var rendered;
      if h.avatarType(generatedUri) == LetterTileType {
        rendered := RenderLetterTile(h.toUpperCase, h.name(generatedUri), h.identifier(d.uri), width, height, res);
      } else {
        rendered := RenderDefaultAvatar(h.identifier(d.uri), width, height, res);
      }
      return Attach(key, rendered, orientation);
    }
    r := Success(ImageResource(key, Loaded(bitmap.value), orientation));
  }
}

/** Opaque stand-ins for the SDL resources the viewer owns. Each allocation
    is a fresh object, so "the same surface" is object identity and "loaded
    again" is a new object. Pixels are not modelled. */
module Sdl {
  import opened Wrappers

  type Path = string

  /** Width and height of a decodable image file. */
  datatype Dims = Dims(w: int, h: int)

  /** The files the image decoder can read and decode, with their sizes; a
      path missing from the map is missing, unreadable or not an image. */
  type Disk = map<Path, Dims>

  /** A decoded pixel buffer (`SDL_Surface`). */
  class Surface {
    const w: int
    const h: int

    constructor (d: Dims)
      ensures w == d.w && h == d.h
    {
      w, h := d.w, d.h;
    }
  }

  /** A rendering context. A texture it creates may not exceed its maximum
      texture size on either axis. */
  class Renderer {
    const maxTextureWidth: int
    const maxTextureHeight: int

    constructor (maxW: int, maxH: int)
      ensures maxTextureWidth == maxW && maxTextureHeight == maxH
    {
      maxTextureWidth, maxTextureHeight := maxW, maxH;
    }

    predicate Accepts(s: Surface)
    {
      0 < s.w <= maxTextureWidth && 0 < s.h <= maxTextureHeight
    }
  }

  /** A display texture, tied to the renderer that created it. */
  class Texture {
    const w: int
    const h: int
    const renderer: Renderer

    constructor (s: Surface, r: Renderer)
      ensures w == s.w && h == s.h && renderer == r
    {
      w, h, renderer := s.w, s.h, r;
    }
  }

  /** `IMG_Load` wrapped in the error check that throws on a null result. */
  method LoadImage(disk: Disk, path: Path) returns (r: Result<Surface>)
    ensures r.Ok? <==> path in disk
    ensures r.Ok? ==> fresh(r.value) && r.value.w == disk[path].w && r.value.h == disk[path].h
  {
    if path in disk {
      var s := new Surface(disk[path]);
      r := Ok(s);
    } else {
      r := Err("Couldn't open " + path);
    }
  }

  /** `SDL_CreateTextureFromSurface` wrapped in the same error check. */
  method CreateTexture(renderer: Renderer, s: Surface) returns (r: Result<Texture>)
    ensures r.Ok? <==> renderer.Accepts(s)
    ensures r.Ok? ==> fresh(r.value) && r.value.renderer == renderer
    ensures r.Ok? ==> r.value.w == s.w && r.value.h == s.h
  {
    if renderer.Accepts(s) {
      var t := new Texture(s, renderer);
      r := Ok(t);
    } else {
      r := Err("Texture dimensions are limited");
    }
  }
}

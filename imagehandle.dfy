/** The image handle: a path with a lazily decoded surface and a lazily
    uploaded texture, each created at most once and owned by the handle. */
module ImageHandle {
  import opened Wrappers
  import opened Sdl

  const EmptyImage: string := "Image is empty"

  class ImageData {
    var path: Path
    var surface: Option<Surface>
    var texture: Option<Texture>

    /** A texture is only ever made from the cached surface, and an empty
        handle never caches anything. */
    ghost predicate Valid()
      reads this
    {
      (texture.Some? ==> surface.Some? && texture.value.w == surface.value.w
                                       && texture.value.h == surface.value.h) &&
      (surface.Some? ==> path != "")
    }

    /** An empty handle: no path and no resources. */
    constructor ()
      ensures Valid() && path == "" && surface == None && texture == None
    {
      path, surface, texture := "", None, None;
    }

    /** A handle for `p`; nothing is decoded yet. */
    constructor FromPath(p: Path)
      ensures Valid() && path == p && surface == None && texture == None
    {
      path, surface, texture := p, None, None;
    }

    /** Assigning a path replaces the whole handle: the resources made for
        the previous path are released and none of them survives. */
    method Assign(p: Path)
      modifies this
      ensures Valid() && path == p && surface == None && texture == None
    {
      path, surface, texture := p, None, None;
    }

    /** The path, or the empty-image error for an empty handle: it succeeds
        exactly when the handle's truth value is true. */
    method GetPath() returns (r: Result<Path>)
      ensures r.Err? <==> path == ""
      ensures r.Ok? <==> HasImage()
      ensures r.Err? ==> r.error == EmptyImage
      ensures r.Ok? ==> r.value == path
    {
      if path == "" {
        r := Err(EmptyImage);
      } else {
        r := Ok(path);
      }
    }

    predicate IsEmpty()
      reads this
      ensures IsEmpty() <==> path == ""
    {
      path == ""
    }

    /** The handle's truth value: it holds a path. */
    predicate HasImage()
      reads this
      ensures HasImage() <==> !IsEmpty()
    {
      !IsEmpty()
    }

    /** The decoded surface: a cached one is returned as it is; otherwise the
        file is decoded once and the result cached. An empty handle fails with
        the empty-image error and a failed decode caches nothing. */
    method GetSurface(disk: Disk) returns (r: Result<Surface>)
      requires Valid()
      modifies this
      ensures Valid() && path == old(path) && texture == old(texture)
      ensures old(surface).Some? ==> r == Ok(old(surface).value) && surface == old(surface)
      ensures old(surface).None? && path == "" ==> r == Err(EmptyImage) && surface == None
      ensures old(surface).None? && path != "" ==>
                (r.Ok? <==> path in disk) &&
                (r.Ok? ==> fresh(r.value) && surface == Some(r.value) &&
                           r.value.w == disk[path].w && r.value.h == disk[path].h) &&
                (r.Err? ==> surface == None)
    {
      if surface.None? {
        var p := GetPath();
        if p.Err? {
          return Err(p.error);
        }
        var loaded := LoadImage(disk, p.value);
        if loaded.Err? {
          return Err(loaded.error);
        }
        surface := Some(loaded.value);
      }
      r := Ok(surface.value);
    }

    /** The display texture: a cached one is returned whatever renderer is
        passed; otherwise the surface is obtained (decoding it if need be)
        and uploaded once, and the texture cached. A failed upload leaves the
        surface cached and no texture. */
    method GetTexture(disk: Disk, renderer: Renderer) returns (r: Result<Texture>)
      requires Valid()
      modifies this
      ensures Valid() && path == old(path)
      ensures old(texture).Some? ==>
                r == Ok(old(texture).value) && texture == old(texture) && surface == old(surface)
      ensures old(texture).None? && old(surface).Some? ==> surface == old(surface)
      ensures old(texture).None? && path == "" ==> r == Err(EmptyImage) && surface == None && texture == None
      ensures old(texture).None? && path != "" ==>
                (surface.Some? <==> old(surface).Some? || path in disk) &&
                (r.Ok? <==> surface.Some? && renderer.Accepts(surface.value)) &&
                (r.Ok? ==> fresh(r.value) && texture == Some(r.value) && r.value.renderer == renderer) &&
                (r.Err? ==> texture == None)
      ensures old(texture).None? && old(surface).None? && surface.Some? ==>
                fresh(surface.value) && surface.value.w == disk[path].w && surface.value.h == disk[path].h
      ensures r.Ok? ==> surface.Some? && texture == Some(r.value)
      ensures r.Ok? ==> r.value.w == surface.value.w && r.value.h == surface.value.h
    {
      if texture.None? {
        var s := GetSurface(disk);
        if s.Err? {
          return Err(s.error);
        }
        var made := CreateTexture(renderer, s.value);
        if made.Err? {
          return Err(made.error);
        }
        texture := Some(made.value);
      }
      r := Ok(texture.value);
    }
  }
}

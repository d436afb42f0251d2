/**
 * ImageSurface and its shared cache as objects updated in place. The cache
 * service is one object passed to every surface, standing for the class-level
 * `cache` table and `cacheEnabled` flag of ImageSurface.js. SetContent and
 * Deploy are proved equal to AfterSetContent, AfterDeploy and TargetSrc of
 * module ImageCache; every method keeps the table's counts at least one.
 */
module ImageSurfaces {
  import opened Wrappers
  import opened ImageCache

  /** The shared cache table and the enabled flag. */
  class Cache {
    var table: Table
    var enabled: bool

    /** Every entry of the table counts at least one holder. */
    ghost predicate Valid()
      reads this
    {
      ImageCache.Valid(table)
    }

    /** An empty table with caching enabled. */
    constructor ()
      ensures Valid()
      ensures table == map[] && enabled
    {
      table := map[];
      enabled := true;
    }

    method EnableCache()
      requires Valid()
      modifies this`enabled
      ensures Valid()
      ensures enabled
    {
      enabled := true;
    }

    method DisableCache()
      requires Valid()
      modifies this`enabled
      ensures Valid()
      ensures !enabled
    {
      enabled := false;
    }

    /** Drops every entry, whoever still holds its URL; the flag is kept. */
    method ClearCache()
      modifies this`table
      ensures Valid()
      ensures table == map[]
    {
      table := map[];
    }
  }

  /** The image element a surface deploys into; only its source is modelled. */
  class ImageElement {
    var src: string

    constructor (src: string)
      ensures this.src == src
    {
      this.src := src;
    }
  }

  /** A surface showing one image URL. */
  class ImageSurface {
    var imageUrl: Option<string>
    var contentDirty: bool

    /** No URL until setContent is called. */
    constructor ()
      ensures imageUrl == None
    {
      imageUrl := None;
    }

    /** Moves this surface's reference from its current URL to `url` and marks
        the content dirty. */
    method SetContent(cache: Cache, url: string)
      requires cache.Valid()
      requires CanSetContent(cache.table, imageUrl, url)
      modifies this, cache`table
      ensures cache.Valid()
      ensures cache.table == AfterSetContent(old(cache.table), old(imageUrl), url)
      ensures Live(cache.table, url) && cache.table[url].value.count >= 1
      ensures imageUrl == Some(url) && contentDirty
    {
      if Truthy(imageUrl) && imageUrl.value != url {
        var previous := imageUrl.value;
        var e := cache.table[previous].value;
        if e.count == 1 {
          cache.table := cache.table[previous := None];
        } else {
          cache.table := cache.table[previous := Some(e.(count := e.count - 1))];
        }
      }
      if !Live(cache.table, url) {
        cache.table := cache.table[url := Some(Entry(1, None))];
      } else {
        var e := cache.table[url].value;
        cache.table := cache.table[url := Some(e.(count := e.count + 1))];
      }
      imageUrl := Some(url);
      contentDirty := true;
    }

    /** Stores a prefetch image on first deploy while caching is enabled, then
        points the target at the current URL. */
    method Deploy(cache: Cache, target: ImageElement)
      requires cache.Valid()
      requires CanDeploy(cache.table, imageUrl)
      modifies cache`table, target
      ensures cache.Valid()
      ensures cache.table == AfterDeploy(old(cache.table), cache.enabled, imageUrl)
      ensures target.src == TargetSrc(imageUrl)
    {
      var k := Key(imageUrl);
      var e := cache.table[k].value;
      if e.node == None && cache.enabled {
        cache.table := cache.table[k := Some(e.(node := Some(Image(k))))];
      }
      target.src := if Truthy(imageUrl) then imageUrl.value else "";
    }

    /** Clears the target's source; the cache is not touched. */
    method Recall(target: ImageElement)
      modifies target
      ensures target.src == ""
    {
      target.src := "";
    }
  }

  /** Two surfaces sharing one URL, then moving away from it one by one. */
  method SharedUrlScenario()
  {
    var cache := new Cache();
    var a := new ImageSurface();
    var b := new ImageSurface();
    a.SetContent(cache, "x.png");
    assert cache.table == map["x.png" := Some(Entry(1, None))];
    b.SetContent(cache, "x.png");
    assert cache.table["x.png"] == Some(Entry(2, None));
    a.SetContent(cache, "y.png");
    assert cache.table["x.png"] == Some(Entry(1, None));
    assert cache.table["y.png"] == Some(Entry(1, None));
    b.SetContent(cache, "y.png");
    assert cache.table["x.png"] == None && cache.table["y.png"] == Some(Entry(2, None));
    var img := new ImageElement("");
    a.Deploy(cache, img);
    assert cache.table["y.png"] == Some(Entry(2, Some(Image("y.png"))));
    assert img.src == "y.png";
    a.Recall(img);
    assert img.src == "";
    cache.ClearCache();
    assert !CanSetContent(cache.table, b.imageUrl, "z.png");
  }
}

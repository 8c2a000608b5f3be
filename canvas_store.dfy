/**
 * The local copy of the shared pixel map (src/lib/stores/canvas.svelte.ts).
 *
 * `CanvasStore` holds the map from key `"x,y"` to color and the handle of
 * its change subscription. The backing store's answers (the loaded row, the
 * change notifications, the channel handle a subscription returns) arrive
 * as method parameters.
 */
module Canvas {
  import opened Wrappers
  import opened PixelKeys

  /** The pixel map: key `"x,y"` to color string. */
  type Pixels = map<string, string>

  /** A handle on an open change subscription. */
  type ChannelId = nat

  /** The answer to loading the canvas row: an error, or the row's `pixels` (possibly absent). */
  datatype LoadResponse = LoadFailed | Loaded(pixels: Option<Pixels>)

  /** `(pixels as CanvasPixels) || {}`: the snapshot, or the empty map when absent. */
  function SnapshotOrEmpty(snapshot: Option<Pixels>): (p: Pixels)
    ensures snapshot.Some? ==> p == snapshot.value
    ensures snapshot.None? ==> p == map[]
  {
    snapshot.GetOr(map[])
  }

  /** The map after cell (`x`, `y`) is painted `color`. */
  function WithPixel(pixels: Pixels, x: int, y: int, color: string): (r: Pixels)
    ensures Key(x, y) in r && r[Key(x, y)] == color
    ensures r.Keys == pixels.Keys + {Key(x, y)}
    ensures forall k :: k in pixels && k != Key(x, y) ==> r[k] == pixels[k]
  {
    pixels[Key(x, y) := color]
  }

  /** The color of cell (`x`, `y`) in `pixels`, if painted. */
  function ColorAt(pixels: Pixels, x: int, y: int): Option<string> {
    if Key(x, y) in pixels then Some(pixels[Key(x, y)]) else None
  }

  /**
   * Painting a cell reads back as that color at that cell and changes the
   * color of no other cell.
   */
  lemma WithPixelReadBack(pixels: Pixels, x: int, y: int, color: string, x': int, y': int)
    ensures ColorAt(WithPixel(pixels, x, y, color), x', y') ==
      if x' == x && y' == y then Some(color) else ColorAt(pixels, x', y')
  {
    KeyInjective(x, y, x', y');
  }

  /** Painting two different cells gives the same map in either order. */
  lemma WithPixelCommutes(pixels: Pixels, x1: int, y1: int, c1: string, x2: int, y2: int, c2: string)
    requires x1 != x2 || y1 != y2
    ensures WithPixel(WithPixel(pixels, x1, y1, c1), x2, y2, c2)
         == WithPixel(WithPixel(pixels, x2, y2, c2), x1, y1, c1)
  {
    KeyInjective(x1, y1, x2, y2);
  }

  /** A second write to the same cell overwrites the first. */
  lemma WithPixelOverwrites(pixels: Pixels, x: int, y: int, c1: string, c2: string)
    ensures WithPixel(WithPixel(pixels, x, y, c1), x, y, c2) == WithPixel(pixels, x, y, c2)
  {
  }

  class CanvasStore {
    var pixels: Pixels
    var channel: Option<ChannelId>

    /** A fresh store: nothing painted, not subscribed. */
    constructor ()
      ensures pixels == map[] && channel == None
    {
      pixels := map[];
      channel := None;
    }

    /**
     * `load`: on an error the map is left as it was; otherwise it is
     * replaced wholesale by the loaded map, or emptied when the row has none.
     */
    method Load(response: LoadResponse)
      modifies this`pixels
      ensures response.LoadFailed? ==> pixels == old(pixels)
      ensures response.Loaded? ==> pixels == SnapshotOrEmpty(response.pixels)
    {
      if response.LoadFailed? {
        return;
      }
      pixels := SnapshotOrEmpty(response.pixels);
    }

    /**
     * `subscribeToUpdates`: opens the subscription (whose handle is
     * `handle`) unless one is already open, in which case nothing changes.
     */
    method SubscribeToUpdates(handle: ChannelId) returns (subscribed: bool)
      modifies this`channel
      ensures subscribed <==> old(channel).None?
      ensures channel == if subscribed then Some(handle) else old(channel)
    {
      if channel.Some? {
        return false;
      }
      channel := Some(handle);
      subscribed := true;
    }

    /**
     * The change-notification handler: the map becomes the notified
     * snapshot, or empty when the notification carries none, whatever it
     * held before. Local writes missing from the snapshot are dropped, and
     * delivering the same snapshot again changes nothing.
     */
    method OnPixelsChanged(snapshot: Option<Pixels>)
      modifies this`pixels
      ensures pixels == SnapshotOrEmpty(snapshot)
    {
      pixels := SnapshotOrEmpty(snapshot);
    }

    /** `addPixel`: paints cell (`x`, `y`) in place, with no range check on the cell. */
    method AddPixel(x: int, y: int, color: string)
      modifies this`pixels
      ensures pixels == WithPixel(old(pixels), x, y, color)
    {
      pixels := pixels[Key(x, y) := color];
    }

    /**
     * `destroy`: closes the subscription if one is open, handing back the
     * handle to remove; afterwards a subscription can be opened again.
     */
    method Destroy() returns (removed: Option<ChannelId>)
      modifies this`channel
      ensures removed == old(channel)
      ensures channel == None
    {
      removed := channel;
      if channel.Some? {
        channel := None;
      }
    }
  }

  /**
   * Painting outside the wall is stored like any other write, and a later
   * snapshot that lacks a locally painted cell reverts that cell to
   * unpainted.
   */
  method SnapshotDropsLocalWrite() returns (painted: Pixels, synced: Pixels)
    ensures ColorAt(painted, 200, 0) == Some("#FF0000")
    ensures ColorAt(painted, 10, 10) == Some("#FF0000")
    ensures ColorAt(synced, 10, 10) == None
    ensures ColorAt(synced, 3, 4) == Some("#000000")
  {
    var store := new CanvasStore();
    store.AddPixel(200, 0, "#FF0000");
    store.AddPixel(10, 10, "#FF0000");
    painted := store.pixels;
    WithPixelReadBack(map[], 200, 0, "#FF0000", 10, 10);
    WithPixelReadBack(WithPixel(map[], 200, 0, "#FF0000"), 10, 10, "#FF0000", 200, 0);
    store.OnPixelsChanged(Some(map[Key(3, 4) := "#000000"]));
    synced := store.pixels;
    KeyInjective(3, 4, 10, 10);
  }

  /** Unsubscribing twice is harmless, and a later subscribe opens a new subscription. */
  method ResubscribeAfterDestroy(first: ChannelId, second: ChannelId) returns (again: bool, current: Option<ChannelId>)
    ensures again && current == Some(second)
  {
    var store := new CanvasStore();
    var s1 := store.SubscribeToUpdates(first);
    var s2 := store.SubscribeToUpdates(second);
    assert s1 && !s2 && store.channel == Some(first);
    var r1 := store.Destroy();
    var r2 := store.Destroy();
    assert r1 == Some(first) && r2 == None;
    again := store.SubscribeToUpdates(second);
    current := store.channel;
  }
}

/** From what is downloaded, loaded or merged to what a container of the image searches: the
    layers of the list, top first, under its writable layer. */
module Provenance {
  import opened Strings
  import opened Registry

  /** Layers as the code lists them, each in the folder `dir`. */
  function Placed(dir: string, names: seq<string>): (r: seq<string>)
    ensures |r| == |names| && forall i | 0 <= i < |r| :: r[i] == dir + "/" + names[i]
  {
    seq(|names|, i requires 0 <= i < |names| => dir + "/" + names[i])
  }

  /** The base names of such a list are the names of the layers. */
  lemma PlacedBases(dir: string, names: seq<string>)
    requires ':' !in dir && names != []
    requires forall i | 0 <= i < |names| :: names[i] != "" && '/' !in names[i] && ':' !in names[i]
    ensures Bases(Join(Placed(dir, names), ':')) == names
  {
    var parts := Placed(dir, names);
    forall i | 0 <= i < |parts| ensures ':' !in parts[i] && Base(parts[i]) == names[i] { BaseOf(dir, names[i]); }
    SplitJoin(parts, ':');
  }

  /** In `s'` container `id` of the image has its folder under `folder`, and searches the writable
      layer and then the layers of `order`, the last one first. */
  ghost predicate Searches(s': State, id: string, image: string, folder: string, order: string) {
    var home := folder + "/workspace/" + id;
    && id in s'.containers && s'.containers[id].home == home && s'.containers[id].image == image
    && home in s'.infos && s'.infos[home].imageBase == image
    && Split(s'.infos[home].layers, ':') == ["rw"] + Reverse(Bases(order))
  }

  lemma CreatedSearches(s: State, image: string, id: string)
    requires image in s.images && Fresh(s, s.images[image].rootdir + "/workspace/" + id, id)
    requires !Repeats(Bases(s.images[image].layerOrder))
    ensures Searches(Create(s, image, id, true), id, image, s.images[image].rootdir, s.images[image].layerOrder)
    ensures Create(s, image, id, true).images == s.images
  {
    LayersAreReversed(s.images[image].layerOrder);
    var home := s.images[image].rootdir + "/workspace/" + id;
    assert Under(home, home) && home !in s.infos;
  }

  /** A container of a downloaded image searches the downloaded layers, the topmost first. */
  lemma DownloadedSearches(s: State, data: string, name: string, full: string, x: string, y: string, more: string,
                           order: string, id: string)
    requires full == (if ':' in name then name else name + ":latest") && Tagged(full, x, y, more)
    requires full !in s.images && !Repeats(Bases(order))
    requires Fresh(s, data + "/" + x + "/" + y + "/workspace/" + id, id)
    ensures Searches(Create(Download(s, data, name, order, true), full, id, true), id, full, data + "/" + x + "/" + y, order)
  {
    TaggedSplit(full, x, y, more);
    CreatedSearches(Download(s, data, name, order, true), full, id);
  }

  /** The same for an image loaded from an archive, */
  lemma LoadedSearches(s: State, data: string, full: string, x: string, y: string, more: string, order: string, id: string)
    requires Tagged(full, x, y, more) && full !in s.images && !Repeats(Bases(order))
    requires Fresh(s, data + "/" + x + "/" + y + "/workspace/" + id, id)
    ensures Searches(Create(Load(s, data, full, order), full, id, true), id, full, data + "/" + x + "/" + y, order)
  {
    TaggedSplit(full, x, y, more);
    CreatedSearches(Load(s, data, full, order), full, id);
  }

  /** and for a merged one, whatever was registered under that name. */
  lemma MergedSearches(s: State, data: string, name: string, full: string, x: string, y: string, more: string,
                       layer: string, id: string)
    requires full == (if ':' in name then name else name + ":latest") && Tagged(full, x, y, more)
    requires !Repeats(Bases(layer)) && Fresh(s, data + "/" + x + "/" + y + "-merge" + "/workspace/" + id, id)
    ensures Searches(Create(Merge(s, data, name, layer, true), full + "-merge", id, true), id, full + "-merge",
                     data + "/" + x + "/" + y + "-merge", layer)
  {
    TaggedSplit(full, x, y, more);
    CreatedSearches(Merge(s, data, name, layer, true), full + "-merge", id);
  }

  /** End to end, for the names of the layers themselves. */
  lemma DownloadedNames(s: State, data: string, name: string, full: string, x: string, y: string, more: string,
                        dir: string, names: seq<string>, id: string)
    requires full == (if ':' in name then name else name + ":latest") && Tagged(full, x, y, more) && full !in s.images
    requires ':' !in dir && names != [] && (forall i, j | 0 <= i < j < |names| :: names[i] != names[j])
    requires forall i | 0 <= i < |names| :: names[i] != "" && '/' !in names[i] && ':' !in names[i]
    requires Fresh(s, data + "/" + x + "/" + y + "/workspace/" + id, id)
    ensures var s' := Create(Download(s, data, name, Join(Placed(dir, names), ':'), true), full, id, true);
            var home := data + "/" + x + "/" + y + "/workspace/" + id;
            home in s'.infos && Split(s'.infos[home].layers, ':') == ["rw"] + Reverse(names)
  {
    PlacedBases(dir, names);
    DownloadedSearches(s, data, name, full, x, y, more, Join(Placed(dir, names), ':'), id);
  }
}

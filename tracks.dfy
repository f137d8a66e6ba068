/** `GET /api/tracks`: every cached track as `{path, ...meta}`, optionally narrowed by a
    case-insensitive substring search over title, artist and album.

    The listing order is that of `Object.keys(db.metadata)`, which the model takes as an
    input: a sequence holding each key of the cache exactly once. */
module Tracks {
  import opened Common
  import opened Tags
  import Scan

  /** One listed track. */
  datatype Listed = Listed(path: string, meta: TrackMeta)

  /** `keys` is an enumeration of the cache: each key exactly once. */
  predicate EnumeratesKeys(keys: seq<string>, metadata: map<string, Scan.CacheEntry>) {
    (forall i, j :: 0 <= i < j < |keys| ==> keys[i] != keys[j])
    && (forall k :: k in keys ==> k in metadata) && (forall k :: k in metadata ==> k in keys)
  }

  /** `Object.keys(meta).map(p => ({path: p, ...meta[p].meta}))`. */
  function AllTracks(keys: seq<string>, metadata: map<string, Scan.CacheEntry>): seq<Listed>
    requires forall k :: k in keys ==> k in metadata
  {
    if keys == [] then []
    else AllTracks(keys[..|keys| - 1], metadata) + [Listed(keys[|keys| - 1], metadata[keys[|keys| - 1]].meta)]
  }

  /** `q && String(q).trim()`: a query is applied only when present and not blank. The
      model writes a missing `q` as `None`; "" is falsy like a missing one. */
  predicate SearchActive(q: Option<string>) {
    q.Some? && !TrimsToEmpty(q.value)
  }

  /** The filter test, with `s = String(q).toLowerCase()` (not trimmed). */
  predicate Matches(t: Listed, s: string) {
    Contains(Lower(t.meta.title), s) || Contains(Lower(t.meta.artist), s) || Contains(Lower(t.meta.album), s)
  }

  function FilterMatching(items: seq<Listed>, s: string): seq<Listed> {
    if items == [] then []
    else FilterMatching(items[..|items| - 1], s) + (if Matches(items[|items| - 1], s) then [items[|items| - 1]] else [])
  }

  /** The reply's `items`. */
  function ListTracks(keys: seq<string>, metadata: map<string, Scan.CacheEntry>, q: Option<string>): seq<Listed>
    requires forall k :: k in keys ==> k in metadata
  {
    var items := AllTracks(keys, metadata);
    if SearchActive(q) then FilterMatching(items, Lower(q.value)) else items
  }

  /** The listing has one item per key, in key order, each carrying the key and its
      cached metadata. */
  lemma {:induction false} AllTracksLinesUp(keys: seq<string>, metadata: map<string, Scan.CacheEntry>)
    requires forall k :: k in keys ==> k in metadata
    ensures var items := AllTracks(keys, metadata);
      && |items| == |keys|
      && forall i :: 0 <= i < |keys| ==> items[i] == Listed(keys[i], metadata[keys[i]].meta)
  {
    if keys != [] {
      AllTracksLinesUp(keys[..|keys| - 1], metadata);
    }
  }

  /** The filter keeps exactly the matching items, never adds one, and never grows the
      list. */
  lemma {:induction false} FilterMembers(items: seq<Listed>, s: string)
    ensures forall t :: t in FilterMatching(items, s) <==> t in items && Matches(t, s)
    ensures |FilterMatching(items, s)| <= |items|
  {
    if items != [] {
      FilterMembers(items[..|items| - 1], s);
      assert items == items[..|items| - 1] + [items[|items| - 1]];
    }
  }

  /** The filter keeps the listing order: filtering a concatenation filters each part. */
  lemma {:induction false} FilterDistributes(a: seq<Listed>, b: seq<Listed>, s: string)
    ensures FilterMatching(a + b, s) == FilterMatching(a, s) + FilterMatching(b, s)
    decreases |b|
  {
    if b == [] {
      assert a + b == a;
    } else {
      var b', last := b[..|b| - 1], b[|b| - 1];
      assert (a + b)[..|a + b| - 1] == a + b';
      assert (a + b)[|a + b| - 1] == last;
      FilterDistributes(a, b', s);
    }
  }

  /** Every cached track appears in the listing, and nothing else does. */
  lemma AllTracksListsEveryKey(keys: seq<string>, metadata: map<string, Scan.CacheEntry>)
    requires EnumeratesKeys(keys, metadata)
    ensures forall p :: p in metadata ==> Listed(p, metadata[p].meta) in AllTracks(keys, metadata)
    ensures forall t :: t in AllTracks(keys, metadata) ==> t.path in metadata && t.meta == metadata[t.path].meta
  {
    var items := AllTracks(keys, metadata);
    AllTracksLinesUp(keys, metadata);
    forall p | p in metadata
      ensures Listed(p, metadata[p].meta) in items
    {
      var i :| 0 <= i < |keys| && keys[i] == p;
      assert items[i] == Listed(p, metadata[p].meta);
    }
  }

  /** With no query, an empty one, or one made only of whitespace, every cached track is
      listed; with a real query, a cached track is listed exactly when its lower-cased
      title, artist or album contains the lower-cased query. */
  lemma ListTracksMembers(keys: seq<string>, metadata: map<string, Scan.CacheEntry>, q: Option<string>)
    requires EnumeratesKeys(keys, metadata)
    ensures !SearchActive(q) ==> ListTracks(keys, metadata, q) == AllTracks(keys, metadata)
    ensures forall p :: p in metadata ==>
              (Listed(p, metadata[p].meta) in ListTracks(keys, metadata, q) <==>
               !SearchActive(q) || Matches(Listed(p, metadata[p].meta), Lower(q.value)))
    ensures forall t :: t in ListTracks(keys, metadata, q) ==> t.path in metadata && t.meta == metadata[t.path].meta
  {
    AllTracksListsEveryKey(keys, metadata);
    if SearchActive(q) {
      FilterMembers(AllTracks(keys, metadata), Lower(q.value));
    }
  }

  /** A search is case-insensitive in the query: queries that differ only in ASCII case
      list the same tracks. */
  lemma SearchIgnoresQueryCase(keys: seq<string>, metadata: map<string, Scan.CacheEntry>, q1: string, q2: string)
    requires forall k :: k in keys ==> k in metadata
    requires Lower(q1) == Lower(q2)
    ensures ListTracks(keys, metadata, Some(q1)) == ListTracks(keys, metadata, Some(q2))
  {
    assert TrimsToEmpty(q1) <==> TrimsToEmpty(q2) by {
      forall i | 0 <= i < |q1|
        ensures IsJsWhitespace(q1[i]) <==> IsJsWhitespace(q2[i])
      {
        assert Lower(q1)[i] == LowerChar(q1[i]) && Lower(q2)[i] == LowerChar(q2[i]);
      }
    }
  }

  /** A search term occurring in a title with the same letters in another case matches. */
  lemma MatchExample()
    ensures Matches(Listed("/m/a.mp3", TrackMeta("Blue Moon", "Unknown", "Unknown", None, None)), "moon")
  {
    var t := Lower("Blue Moon");
    assert t[5..9] == "moon";
    ContainsIff(t, "moon");
    assert OccursAt(t, "moon", 5);
  }
}

/**
 * `listObjectsByPrefix` in cmd/server/main.go: walk the listing stream of the
 * media bucket, strip one trailing `/` from every key, and stop at the first
 * element that carries an error, keeping what was gathered before it.
 */
module Listing {
  import opened Store

  /** Go's `strings.TrimSuffix(key, "/")`: drops one trailing slash, if there is one. */
  function TrimSlash(key: string): (r: string)
    ensures |key| > 0 && key[|key| - 1] == '/' ==> r + "/" == key
    ensures !(|key| > 0 && key[|key| - 1] == '/') ==> r == key
  {
    if |key| > 0 && key[|key| - 1] == '/' then key[..|key| - 1] else key
  }

  /** The keys listed from a stream: the trimmed keys up to the first error. */
  function ListedKeys(items: seq<ListItem>): (r: seq<string>)
    ensures |r| <= |items|
  {
    if items == [] then []
    else
      match items[0]
      case ListError(_) => []
      case Entry(key) => [TrimSlash(key)] + ListedKeys(items[1..])
  }

  /** The position of the first error in the stream, or its length when there is none. */
  function FirstError(items: seq<ListItem>): (n: nat)
    ensures n <= |items|
    ensures forall i | 0 <= i < n :: items[i].Entry?
    ensures n < |items| ==> items[n].ListError?
  {
    if items == [] then 0
    else if items[0].ListError? then 0
    else 1 + FirstError(items[1..])
  }

  /** The listing keeps the entries before the first error, in stream order, each trimmed once. */
  lemma {:induction false} ListedKeysAreEntriesBeforeFirstError(items: seq<ListItem>)
    ensures |ListedKeys(items)| == FirstError(items)
    ensures forall i | 0 <= i < |ListedKeys(items)| :: items[i].Entry? && ListedKeys(items)[i] == TrimSlash(items[i].key)
  {
    if items != [] && items[0].Entry? {
      ListedKeysAreEntriesBeforeFirstError(items[1..]);
    }
  }

  /** An error truncates the listing: nothing after it is ever returned. */
  lemma {:induction false} ErrorTruncates(before: seq<ListItem>, message: string, after: seq<ListItem>)
    ensures ListedKeys(before + [ListError(message)] + after) == ListedKeys(before)
  {
    if before != [] {
      assert (before + [ListError(message)] + after)[1..] == before[1..] + [ListError(message)] + after;
      ErrorTruncates(before[1..], message, after);
    }
  }

  /** Listing a longer stream only ever extends the list: a short list is a prefix of the full one. */
  lemma {:induction false} ListingOfPrefix(items: seq<ListItem>, more: seq<ListItem>)
    ensures ListedKeys(items) <= ListedKeys(items + more)
  {
    if items != [] {
      assert (items + more)[1..] == items[1..] + more;
      ListingOfPrefix(items[1..], more);
    }
  }

  /** Error-free streams list piece by piece. */
  lemma {:induction false} ListingConcatenates(items: seq<ListItem>, more: seq<ListItem>)
    requires forall i | 0 <= i < |items| :: items[i].Entry?
    ensures ListedKeys(items + more) == ListedKeys(items) + ListedKeys(more)
  {
    if items != [] {
      assert (items + more)[1..] == items[1..] + more;
      ListingConcatenates(items[1..], more);
    } else {
      assert items + more == more;
    }
  }

  /** One step of the loop: the listing from position i on, by the item found there. */
  lemma ListedKeysFrom(items: seq<ListItem>, i: nat)
    requires i < |items|
    ensures items[i].ListError? ==> ListedKeys(items[i..]) == []
    ensures items[i].Entry? ==> ListedKeys(items[i..]) == [TrimSlash(items[i].key)] + ListedKeys(items[i + 1..])
  {
    assert items[i..][0] == items[i];
    assert items[i..][1..] == items[i + 1..];
  }

  method ListObjectsByPrefix(cfg: Config, store: ObjectStore, prefix: string) returns (ret: seq<string>)
    ensures ret == ListedKeys(store.list(cfg.mediaBucket, prefix))
    ensures |ret| == FirstError(store.list(cfg.mediaBucket, prefix))
    ensures forall i | 0 <= i < |ret| :: ret[i] == TrimSlash(store.list(cfg.mediaBucket, prefix)[i].key)
  {
    var objects := store.list(cfg.mediaBucket, prefix);
    ret := [];
    var i := 0;
    while i < |objects|
      invariant 0 <= i <= |objects|
      invariant ListedKeys(objects) == ret + ListedKeys(objects[i..])
    {
      ListedKeysFrom(objects, i);
      if objects[i].ListError? {
        break;
      }
      ret := ret + [TrimSlash(objects[i].key)];
      i := i + 1;
    }
    ListedKeysAreEntriesBeforeFirstError(objects);
  }
}

/**
 * The game-state store (firebaseConfig.ts). With the configuration as shipped,
 * the API key is the placeholder, so every operation takes the local-storage
 * branch: one stored document under a fixed key, and an in-window event that
 * runs every registered listener after each save.
 */
module Backend {
  import opened GameTypes

  /**
   * The backend choice: the remote document store is used only when the API
   * key is not the shipped placeholder. Kept to record the rule; every
   * operation below is the local-storage branch.
   */
  predicate UsesRemoteBackend(apiKey: string) {
    apiKey != "YOUR_API_KEY"
  }

  /**
   * The list `unlockSectionInDb` saves: a copy of `current` whose section at
   * `index` has its flag set, every other section as it was.
   */
  function WithUnlocked(current: seq<Section>, index: nat): (r: seq<Section>)
    requires index < |current|
    ensures |r| == |current|
    ensures r[index].isUnlocked
    ensures r[index].id == current[index].id && r[index].code == current[index].code
    ensures r[index].row == current[index].row && r[index].col == current[index].col
    ensures forall j :: 0 <= j < |r| && j != index ==> r[j] == current[j]
  {
    current[index := current[index].(isUnlocked := true)]
  }

  /** Unlocking is idempotent, and unlocking an open section changes nothing. */
  lemma WithUnlockedIdempotent(current: seq<Section>, index: nat)
    requires index < |current|
    ensures WithUnlocked(WithUnlocked(current, index), index) == WithUnlocked(current, index)
    ensures current[index].isUnlocked ==> WithUnlocked(current, index) == current
  {
  }

  /** The image the stored document carries; `undefined` when nothing is stored. */
  function StoredImage(doc: Snapshot): (image: Option<string>)
    ensures doc.None? ==> image.None?
    ensures doc.Some? ==> image == doc.value.imageUrl
  {
    match doc
    case None => None
    case Some(d) => d.imageUrl
  }

  /** The single-document store with its registered listeners. */
  class GameStore {
    /** The stored document, `None` before the first save. */
    var doc: Snapshot
    /** Handles of the listeners currently registered for the update event. */
    var listeners: set<nat>
    /** Every snapshot each listener handle ever received, in order. */
    var delivered: map<nat, seq<Snapshot>>
    /** The handle the next subscription gets. */
    var nextHandle: nat

    ghost predicate Valid()
      reads this
    {
      && listeners <= delivered.Keys
      && forall h :: h in delivered ==> h < nextHandle
    }

    constructor ()
      ensures Valid()
      ensures doc == None && listeners == {} && delivered == map[]
    {
      doc := None;
      listeners := {};
      delivered := map[];
      nextHandle := 0;
    }

    /**
     * `saveGameState`: replaces the whole document with `{imageUrl, sections}`,
     * then runs every registered listener with exactly that document.
     */
    method Save(imageUrl: Option<string>, sections: seq<Section>)
      requires Valid()
      modifies this
      ensures Valid()
      ensures doc == Some(Doc(imageUrl, Some(sections)))
      ensures listeners == old(listeners) && nextHandle == old(nextHandle)
      ensures delivered.Keys == old(delivered).Keys
      ensures forall h :: h in old(listeners) ==> delivered[h] == old(delivered)[h] + [doc]
      ensures forall h :: h in old(delivered) && h !in old(listeners) ==> delivered[h] == old(delivered)[h]
    {
      doc := Some(Doc(imageUrl, Some(sections)));
      var saved := doc;
      delivered := map h | h in delivered :: if h in listeners then delivered[h] + [saved] else delivered[h];
    }

    /**
     * `unlockSectionInDb`: copies the caller's list, sets the flag at `index`,
     * and saves the copy together with the image already stored.
     */
    method UnlockSection(index: nat, current: seq<Section>) returns (newSections: seq<Section>)
      requires Valid()
      requires index < |current|
      modifies this
      ensures Valid()
      ensures newSections == WithUnlocked(current, index)
      ensures doc == Some(Doc(StoredImage(old(doc)), Some(newSections)))
      ensures listeners == old(listeners) && nextHandle == old(nextHandle)
      ensures delivered.Keys == old(delivered).Keys
      ensures forall h :: h in old(listeners) ==> delivered[h] == old(delivered)[h] + [doc]
      ensures forall h :: h in old(delivered) && h !in old(listeners) ==> delivered[h] == old(delivered)[h]
    {
      newSections := WithUnlocked(current, index);
      var image := StoredImage(doc);
      Save(image, newSections);
    }

    /**
     * `subscribeToGame`: registers a listener and calls it once straight away
     * with the current document, or `null` when none is stored.
     */
    method Subscribe() returns (handle: nat)
      requires Valid()
      modifies this
      ensures Valid()
      ensures handle !in old(delivered) && handle !in old(listeners)
      ensures listeners == old(listeners) + {handle}
      ensures delivered == old(delivered)[handle := [doc]]
      ensures doc == old(doc)
    {
      handle := nextHandle;
      nextHandle := nextHandle + 1;
      listeners := listeners + {handle};
      delivered := delivered[handle := [doc]];
    }

    /** The function `subscribeToGame` returns: removes the listener, so later saves skip it. */
    method Unsubscribe(handle: nat)
      requires Valid()
      modifies this
      ensures Valid()
      ensures listeners == old(listeners) - {handle}
      ensures delivered == old(delivered) && doc == old(doc) && nextHandle == old(nextHandle)
    {
      listeners := listeners - {handle};
    }
  }
}

/**
 * The guest-facing client (App.tsx): progress derived from the section list,
 * the unlock resolver that matches an entry code against the sections, and
 * the page state that reads the code from the entry address, follows the
 * store and shows the outcome.
 */
module Client {
  import opened GameTypes
  import opened Backend
  import Admin

  /** The notice shown when no section carries the entry code. */
  const INVALID_CODE_MESSAGE := "Invalid QR Code"

  /** The grid size the page hands to the admin panel: 4 by 4, so 16 sections. */
  const GRID_SIZE: nat := 4

  /** What the outcome screen shows: the piece number (id + 1) and whether it was newly found. */
  datatype UnlockedInfo = UnlockedInfo(id: int, isNew: bool)

  /** The result of resolving one entry code. */
  datatype Outcome = InvalidCode | Found(info: UnlockedInfo)

  /** Which of the three screens the page renders. */
  datatype Screen = VerifyingScreen | OutcomeScreen(info: UnlockedInfo) | Dashboard

  // ---------------------------------------------------------------------------
  // Progress derived from the section list
  // ---------------------------------------------------------------------------

  /** `sections.every(s => s.isUnlocked)`. */
  function EveryUnlocked(sections: seq<Section>): (r: bool)
    ensures r <==> forall i :: 0 <= i < |sections| ==> sections[i].isUnlocked
  {
    |sections| == 0 || (sections[0].isUnlocked && EveryUnlocked(sections[1..]))
  }

  /**
   * `data.sections?.every(...) ?? false`: complete when every section is
   * unlocked, which holds for an empty list; false only when the document has
   * no section list at all.
   */
  function IsComplete(sections: Option<seq<Section>>): (r: bool)
    ensures r <==> sections.Some? && forall i :: 0 <= i < |sections.value| ==> sections.value[i].isUnlocked
    ensures sections == Some([]) ==> r
    ensures sections.None? ==> !r
  {
    match sections
    case None => false
    case Some(s) => EveryUnlocked(s)
  }

  /** `sections.filter(s => s.isUnlocked).length`. */
  function UnlockedCount(sections: seq<Section>): (n: nat)
    ensures n <= |sections|
    ensures n == |sections| <==> forall i :: 0 <= i < |sections| ==> sections[i].isUnlocked
    ensures n == 0 <==> forall i :: 0 <= i < |sections| ==> !sections[i].isUnlocked
  {
    if |sections| == 0 then 0
    else (if sections[0].isUnlocked then 1 else 0) + UnlockedCount(sections[1..])
  }

  /** The count reaches the total exactly when the list is complete. */
  lemma CountedCompletion(sections: seq<Section>)
    ensures IsComplete(Some(sections)) <==> UnlockedCount(sections) == |sections|
    ensures UnlockedCount(sections) <= |sections|
  {
  }

  /** Unlocking one section raises the count by one if it was locked, and by nothing otherwise. */
  lemma {:induction false} CountAfterUnlock(sections: seq<Section>, index: nat)
    requires index < |sections|
    ensures UnlockedCount(WithUnlocked(sections, index))
            == UnlockedCount(sections) + (if sections[index].isUnlocked then 0 else 1)
  {
    var after := WithUnlocked(sections, index);
    if index == 0 {
      assert after[1..] == sections[1..];
    } else {
      assert after[1..] == WithUnlocked(sections[1..], index - 1);
      CountAfterUnlock(sections[1..], index - 1);
    }
  }

  // ---------------------------------------------------------------------------
  // The unlock resolver
  // ---------------------------------------------------------------------------

  /** `sections.findIndex(s => s.code === code)`: the first exact match, no trimming, no case folding. */
  function FirstMatch(sections: seq<Section>, code: string): (r: Option<nat>)
    ensures r.Some? ==>
      && r.value < |sections|
      && sections[r.value].code == code
      && forall j :: 0 <= j < r.value ==> sections[j].code != code
    ensures r.None? <==> forall j :: 0 <= j < |sections| ==> sections[j].code != code
  {
    if |sections| == 0 then None
    else if sections[0].code == code then Some(0)
    else match FirstMatch(sections[1..], code)
      case None => None
      case Some(k) => Some(k + 1)
  }

  /** Only the codes decide the match: lists with the same codes match at the same place. */
  lemma FirstMatchByCodes(s: seq<Section>, t: seq<Section>, code: string)
    requires |s| == |t|
    requires forall j :: 0 <= j < |s| ==> s[j].code == t[j].code
    ensures FirstMatch(s, code) == FirstMatch(t, code)
  {
  }

  /** Whether resolving `code` writes to the store: a section matches and is still locked. */
  predicate NeedsWrite(sections: seq<Section>, code: string) {
    match FirstMatch(sections, code)
    case None => false
    case Some(i) => !sections[i].isUnlocked
  }

  /** The outcome `handleUrlUnlock` reports for `code` against `sections`. */
  function Resolve(sections: seq<Section>, code: string): (r: Outcome)
    ensures r.InvalidCode? <==> forall j :: 0 <= j < |sections| ==> sections[j].code != code
    ensures r.Found? ==> exists i :: 0 <= i < |sections| && sections[i].code == code && r.info.id == sections[i].id + 1
    ensures r.Found? ==> (r.info.isNew <==> NeedsWrite(sections, code))
  {
    match FirstMatch(sections, code)
    case None => InvalidCode
    case Some(i) => Found(UnlockedInfo(sections[i].id + 1, !sections[i].isUnlocked))
  }

  /** The section list after resolving `code`: the matched section unlocked when it was locked. */
  function AfterResolve(sections: seq<Section>, code: string): (r: seq<Section>)
    ensures |r| == |sections|
    ensures forall j :: 0 <= j < |r| ==> r[j].code == sections[j].code && r[j].id == sections[j].id
    ensures !NeedsWrite(sections, code) ==> r == sections
  {
    match FirstMatch(sections, code)
    case None => sections
    case Some(i) => if sections[i].isUnlocked then sections else WithUnlocked(sections, i)
  }

  /** An unknown code reports "invalid", writes nothing and leaves the list as it was. */
  lemma ResolveUnknown(sections: seq<Section>, code: string)
    requires forall j :: 0 <= j < |sections| ==> sections[j].code != code
    ensures Resolve(sections, code) == InvalidCode
    ensures !NeedsWrite(sections, code) && AfterResolve(sections, code) == sections
  {
  }

  /**
   * A matched code reports piece `id + 1`; it is new exactly when the section
   * was locked, in which case that one section is unlocked and the count rises
   * by one; an open section is left as it is.
   */
  lemma ResolveMatched(sections: seq<Section>, code: string, i: nat)
    requires FirstMatch(sections, code) == Some(i)
    ensures Resolve(sections, code) == Found(UnlockedInfo(sections[i].id + 1, !sections[i].isUnlocked))
    ensures sections[i].isUnlocked ==> AfterResolve(sections, code) == sections
    ensures !sections[i].isUnlocked ==> AfterResolve(sections, code) == WithUnlocked(sections, i)
    ensures AfterResolve(sections, code)[i].isUnlocked
    ensures UnlockedCount(AfterResolve(sections, code))
            == UnlockedCount(sections) + (if sections[i].isUnlocked then 0 else 1)
  {
    CountAfterUnlock(sections, i);
  }

  /**
   * Resolving the same code again reports the same piece as already found,
   * writes nothing and changes nothing.
   */
  lemma ResolveTwice(sections: seq<Section>, code: string)
    requires Resolve(sections, code).Found?
    ensures Resolve(AfterResolve(sections, code), code)
            == Found(UnlockedInfo(Resolve(sections, code).info.id, false))
    ensures !NeedsWrite(AfterResolve(sections, code), code)
    ensures AfterResolve(AfterResolve(sections, code), code) == AfterResolve(sections, code)
  {
  }

  /**
   * A share card's code finds a section at or before the card's own position
   * with the same code; when no other section shares that code, it finds the
   * card's own section. Codes are drawn at random and not checked for clashes.
   */
  lemma ScannedCardMatches(sections: seq<Section>, baseUrl: string, i: nat)
    requires i < |sections|
    ensures FirstMatch(sections, Admin.ShareLinks(sections, baseUrl)[i].code).Some?
    ensures FirstMatch(sections, Admin.ShareLinks(sections, baseUrl)[i].code).value <= i
    ensures (forall j :: 0 <= j < |sections| && j != i ==> sections[j].code != sections[i].code) ==>
              FirstMatch(sections, Admin.ShareLinks(sections, baseUrl)[i].code) == Some(i)
  {
  }

  /**
   * A freshly generated game: the first scan of section `k`'s code reveals
   * piece `k + 1` as new and brings the count to one; scanning it again reports
   * it as already found.
   */
  lemma FreshGameScan(gridSize: nat, draws: seq<string>, k: nat)
    requires |draws| == gridSize * gridSize
    requires k < gridSize * gridSize
    requires forall j :: 0 <= j < |draws| && j != k ==> Admin.MakeCode(draws[j]) != Admin.MakeCode(draws[k])
    ensures var sections := Admin.GenerateSections(gridSize, draws);
            var code := sections[k].code;
            && Resolve(sections, code) == Found(UnlockedInfo(k + 1, true))
            && UnlockedCount(AfterResolve(sections, code)) == 1
            && AfterResolve(sections, code)[k].isUnlocked
            && Resolve(AfterResolve(sections, code), code) == Found(UnlockedInfo(k + 1, false))
  {
    var sections := Admin.GenerateSections(gridSize, draws);
    var code := sections[k].code;
    assert FirstMatch(sections, code) == Some(k);
    ResolveMatched(sections, code, k);
    ResolveTwice(sections, code);
  }

  /** `data.imageUrl || null`: an absent or empty image reads as none. */
  function ShownImage(imageUrl: Option<string>): (r: Option<string>)
    ensures r.Some? <==> imageUrl.Some? && imageUrl.value != ""
    ensures r.Some? ==> r == imageUrl
  {
    if imageUrl.Some? && imageUrl.value != "" then imageUrl else None
  }

  // ---------------------------------------------------------------------------
  // The page state
  // ---------------------------------------------------------------------------

  /** The state variables of the page and the store it follows. */
  class PuzzleApp {
    const store: GameStore
    var sections: seq<Section>
    var imageUrl: Option<string>
    var isComplete: bool
    var pendingCode: Option<string>
    var isVerifying: bool
    var unlockedInfo: Option<UnlockedInfo>
    var notification: Option<string>
    /** The store handle of this page's listener, once subscribed. */
    var subscription: Option<nat>

    /** A non-empty pending code exists exactly while the page is verifying. */
    ghost predicate Valid()
      reads this, store
    {
      && store.Valid()
      && (pendingCode.Some? ==> pendingCode.value != "")
      && (isVerifying <==> pendingCode.Some?)
    }

    /** Whether this page's listener is still registered with the store. */
    predicate Listening()
      reads this, store
    {
      subscription.Some? && subscription.value in store.listeners
    }

    /** The render order: the verifying screen first, then the outcome, else the dashboard. */
    function CurrentScreen(): (s: Screen)
      reads this
      ensures s == VerifyingScreen <==> isVerifying
      ensures s.OutcomeScreen? <==> !isVerifying && unlockedInfo.Some?
      ensures s.OutcomeScreen? ==> unlockedInfo == Some(s.info)
      ensures s == Dashboard <==> !isVerifying && unlockedInfo.None?
    {
      if isVerifying then VerifyingScreen
      else if unlockedInfo.Some? then OutcomeScreen(unlockedInfo.value)
      else Dashboard
    }

    constructor (store: GameStore)
      requires store.Valid()
      ensures Valid() && this.store == store
      ensures sections == [] && imageUrl == None && !isComplete
      ensures pendingCode == None && !isVerifying && unlockedInfo == None
      ensures notification == None && subscription == None
    {
      this.store := store;
      sections := [];
      imageUrl := None;
      isComplete := false;
      pendingCode := None;
      isVerifying := false;
      unlockedInfo := None;
      notification := None;
      subscription := None;
    }

    /**
     * The entry-address effect: a non-empty `code` parameter starts
     * verification and becomes the pending code; otherwise nothing changes.
     */
    method ReadEntryCode(code: Option<string>)
      requires Valid()
      modifies this
      ensures Valid()
      ensures isVerifying == (old(isVerifying) || (code.Some? && code.value != ""))
      ensures pendingCode == if code.Some? && code.value != "" then code else old(pendingCode)
      ensures sections == old(sections) && imageUrl == old(imageUrl) && isComplete == old(isComplete)
      ensures unlockedInfo == old(unlockedInfo) && notification == old(notification)
      ensures subscription == old(subscription)
    {
      if code.Some? && code.value != "" {
        isVerifying := true;
        pendingCode := code;
      }
    }

    /**
     * The subscription callback: a document replaces the list, the image and
     * the completion flag; `null` leaves them as they were.
     */
    method OnSnapshot(data: Snapshot)
      requires Valid()
      modifies this
      ensures Valid()
      ensures data.None? ==> sections == old(sections) && imageUrl == old(imageUrl) && isComplete == old(isComplete)
      ensures data.Some? ==>
        && sections == data.value.sections.GetOr([])
        && imageUrl == ShownImage(data.value.imageUrl)
        && isComplete == IsComplete(data.value.sections)
      ensures pendingCode == old(pendingCode) && isVerifying == old(isVerifying)
      ensures unlockedInfo == old(unlockedInfo) && notification == old(notification)
      ensures subscription == old(subscription)
    {
      if data.Some? {
        sections := data.value.sections.GetOr([]);
        imageUrl := ShownImage(data.value.imageUrl);
        isComplete := IsComplete(data.value.sections);
      }
    }

    /** The subscription effect: register with the store and take its current document at once. */
    method SubscribeToGame()
      requires Valid()
      modifies this, store
      ensures Valid()
      ensures subscription.Some? && subscription.value !in old(store.delivered) && Listening()
      ensures store.listeners == old(store.listeners) + {subscription.value}
      ensures store.delivered == old(store.delivered)[subscription.value := [store.doc]]
      ensures store.doc == old(store.doc)
      ensures store.doc.None? ==> sections == old(sections) && imageUrl == old(imageUrl) && isComplete == old(isComplete)
      ensures store.doc.Some? ==>
        && sections == store.doc.value.sections.GetOr([])
        && imageUrl == ShownImage(store.doc.value.imageUrl)
        && isComplete == IsComplete(store.doc.value.sections)
      ensures pendingCode == old(pendingCode) && isVerifying == old(isVerifying)
      ensures unlockedInfo == old(unlockedInfo) && notification == old(notification)
    {
      var handle := store.Subscribe();
      subscription := Some(handle);
      OnSnapshot(store.doc);
    }

    /** The effect's cleanup: later saves no longer reach this page. */
    method UnsubscribeFromGame()
      requires Valid()
      modifies store
      ensures Valid() && !Listening()
      ensures store.listeners == if subscription.Some? then old(store.listeners) - {subscription.value} else old(store.listeners)
      ensures store.doc == old(store.doc) && store.delivered == old(store.delivered)
    {
      if subscription.Some? {
        store.Unsubscribe(subscription.value);
      }
    }

    /**
     * `handleUrlUnlock`: resolves `code` against the page's list. An unknown
     * code stops verifying and raises the "Invalid QR Code" notice; a matched
     * open section reports piece `id + 1` as already found without a write; a
     * matched locked section is unlocked through the store at its index and
     * reported as new. The store's copy shares the section objects with the
     * page's list, so the page sees the flag either way, and a listening page
     * also takes the saved document through its callback.
     */
    method HandleUrlUnlock(code: string)
      requires Valid()
      modifies this, store
      ensures store.Valid() && !isVerifying
      ensures sections == AfterResolve(old(sections), code)
      ensures unlockedInfo == match Resolve(old(sections), code)
                              case Found(info) => Some(info)
                              case InvalidCode => old(unlockedInfo)
      ensures notification == if Resolve(old(sections), code).InvalidCode? then Some(INVALID_CODE_MESSAGE) else old(notification)
      ensures pendingCode == old(pendingCode) && subscription == old(subscription)
      ensures store.listeners == old(store.listeners) && store.nextHandle == old(store.nextHandle)
      ensures !NeedsWrite(old(sections), code) ==> store.doc == old(store.doc) && store.delivered == old(store.delivered)
      ensures NeedsWrite(old(sections), code) ==>
        && store.doc == Some(Doc(StoredImage(old(store.doc)), Some(sections)))
        && store.delivered.Keys == old(store.delivered).Keys
        && (forall h :: h in old(store.listeners) ==> store.delivered[h] == old(store.delivered)[h] + [store.doc])
        && (forall h :: h in old(store.delivered) && h !in old(store.listeners) ==> store.delivered[h] == old(store.delivered)[h])
      ensures NeedsWrite(old(sections), code) && old(Listening()) ==>
        isComplete == IsComplete(Some(sections)) && imageUrl == ShownImage(StoredImage(old(store.doc)))
      ensures !(NeedsWrite(old(sections), code) && old(Listening())) ==>
        isComplete == old(isComplete) && imageUrl == old(imageUrl)
    {
      var match_ := FirstMatch(sections, code);
      if match_.Some? {
        var index := match_.value;
        var section := sections[index];
        var isAlreadyUnlocked := section.isUnlocked;
        if !isAlreadyUnlocked {
          var newSections := store.UnlockSection(index, sections);
          sections := newSections;
          if Listening() {
            OnSnapshot(store.doc);
          }
        }
        unlockedInfo := Some(UnlockedInfo(section.id + 1, !isAlreadyUnlocked));
        isVerifying := false;
      } else {
        isVerifying := false;
        notification := Some(INVALID_CODE_MESSAGE);
      }
    }

    /**
     * The pending-code effect: once the list is non-empty, the pending code is
     * resolved and cleared; before that, or with no code, nothing happens.
     */
    method ProcessPending()
      requires Valid()
      modifies this, store
      ensures Valid()
      ensures !(old(pendingCode).Some? && |old(sections)| > 0) ==> unchanged(this) && unchanged(store)
      ensures old(pendingCode).Some? && |old(sections)| > 0 ==>
        var code := old(pendingCode).value;
        && pendingCode == None && !isVerifying
        && sections == AfterResolve(old(sections), code)
        && unlockedInfo == (match Resolve(old(sections), code)
                            case Found(info) => Some(info)
                            case InvalidCode => old(unlockedInfo))
        && notification == (if Resolve(old(sections), code).InvalidCode? then Some(INVALID_CODE_MESSAGE) else old(notification))
        && subscription == old(subscription)
        && store.listeners == old(store.listeners) && store.nextHandle == old(store.nextHandle)
        && (!NeedsWrite(old(sections), code) ==> store.doc == old(store.doc) && store.delivered == old(store.delivered))
        && (NeedsWrite(old(sections), code) ==>
              && store.doc == Some(Doc(StoredImage(old(store.doc)), Some(sections)))
              && store.delivered.Keys == old(store.delivered).Keys
              && (forall h :: h in old(store.listeners) ==> store.delivered[h] == old(store.delivered)[h] + [store.doc])
              && (forall h :: h in old(store.delivered) && h !in old(store.listeners) ==>
                    store.delivered[h] == old(store.delivered)[h]))
        && (NeedsWrite(old(sections), code) && old(Listening()) ==>
              isComplete == IsComplete(Some(sections)) && imageUrl == ShownImage(StoredImage(old(store.doc))))
        && (!(NeedsWrite(old(sections), code) && old(Listening())) ==>
              isComplete == old(isComplete) && imageUrl == old(imageUrl))
    {
      if pendingCode.Some? && |sections| > 0 {
        HandleUrlUnlock(pendingCode.value);
        pendingCode := None;
      }
    }

    /**
     * The admin panel rendered inside the page, with the page's grid size: an
     * upload saves a new game, and a listening page takes the saved document
     * through its callback at once.
     */
    method UploadPhoto(file: Option<string>, draws: seq<string>, baseUrl: string)
      returns (links: seq<Admin.ShareLink>)
      requires Valid()
      requires |draws| == GRID_SIZE * GRID_SIZE
      modifies this, store
      ensures Valid()
      ensures file.None? ==> links == [] && unchanged(store) && unchanged(this)
      ensures file.Some? ==>
        && store.doc == Some(Doc(Some(file.value), Some(Admin.GenerateSections(GRID_SIZE, draws))))
        && links == Admin.ShareLinks(Admin.GenerateSections(GRID_SIZE, draws), baseUrl)
        && store.listeners == old(store.listeners) && store.nextHandle == old(store.nextHandle)
        && store.delivered.Keys == old(store.delivered).Keys
        && (forall h :: h in old(store.listeners) ==> store.delivered[h] == old(store.delivered)[h] + [store.doc])
        && (forall h :: h in old(store.delivered) && h !in old(store.listeners) ==>
              store.delivered[h] == old(store.delivered)[h])
      ensures file.Some? && old(Listening()) ==>
        && sections == Admin.GenerateSections(GRID_SIZE, draws)
        && |sections| == 16 && UnlockedCount(sections) == 0
        && imageUrl == ShownImage(file) && !isComplete
      ensures !(file.Some? && old(Listening())) ==>
        sections == old(sections) && imageUrl == old(imageUrl) && isComplete == old(isComplete)
      ensures pendingCode == old(pendingCode) && isVerifying == old(isVerifying)
      ensures unlockedInfo == old(unlockedInfo) && notification == old(notification)
      ensures subscription == old(subscription)
    {
      links := Admin.HandleImageUpload(store, file, GRID_SIZE, draws, baseUrl);
      if file.Some? && Listening() {
        OnSnapshot(store.doc);
      }
    }

    /** Dismissing the outcome screen clears it and returns to the dashboard. */
    method Dismiss()
      requires Valid()
      modifies this
      ensures Valid() && unlockedInfo == None
      ensures CurrentScreen() == (if isVerifying then VerifyingScreen else Dashboard)
      ensures sections == old(sections) && imageUrl == old(imageUrl) && isComplete == old(isComplete)
      ensures pendingCode == old(pendingCode) && isVerifying == old(isVerifying)
      ensures notification == old(notification) && subscription == old(subscription)
    {
      unlockedInfo := None;
    }
  }
}

/**
 * Section generation and share links (components/AdminPanel.tsx): a new photo
 * yields `gridSize * gridSize` locked sections with fresh codes, which are saved
 * to the store before one share link per section is built.
 */
module Admin {
  import opened GameTypes
  import Backend

  /** The fixed tag every code starts with. */
  const CODE_PREFIX := "WED-"

  /** What separates the page address from the code in a share link. */
  const CODE_QUERY := "?code="

  /** One printed card: the section's id, the address its QR image encodes, and its code. */
  datatype ShareLink = ShareLink(id: int, target: string, code: string)

  predicate IsLowerAscii(c: char) {
    'a' <= c <= 'z'
  }

  /** `toUpperCase` on one character; only the ASCII letters change. */
  function UpperChar(c: char): (u: char)
    ensures !IsLowerAscii(u)
    ensures !IsLowerAscii(c) ==> u == c
    ensures IsLowerAscii(c) ==> 'A' <= u <= 'Z' && u as int == c as int - 32
  {
    if IsLowerAscii(c) then (c as int - 32) as char else c
  }

  /**
   * `toUpperCase` on a string: same length, no lower-case ASCII letter left,
   * each lower-case letter replaced by its capital and every other character
   * kept, so a string without lower-case letters comes back unchanged.
   */
  function Upper(s: string): (u: string)
    ensures |u| == |s|
    ensures forall k :: 0 <= k < |u| ==> !IsLowerAscii(u[k])
    ensures forall k :: 0 <= k < |s| && IsLowerAscii(s[k]) ==> 'A' <= u[k] <= 'Z' && u[k] as int == s[k] as int - 32
    ensures forall k :: 0 <= k < |s| && !IsLowerAscii(s[k]) ==> u[k] == s[k]
    ensures (forall k :: 0 <= k < |s| ==> !IsLowerAscii(s[k])) ==> u == s
  {
    seq(|s|, k requires 0 <= k < |s| => UpperChar(s[k]))
  }

  /** Upper-casing twice is upper-casing once. */
  lemma UpperIdempotent(s: string)
    ensures Upper(Upper(s)) == Upper(s)
  {
  }

  /**
   * `substring(2, 7)` of a draw rendered in base 36 (`"0.xxxxxxxx"`): both ends
   * are clamped to the length, so a short draw gives a shorter suffix.
   */
  function RandomSuffix(draw: string): (s: string)
    ensures |s| <= 5
    ensures |draw| >= 7 ==> s == draw[2..7]
    ensures |draw| <= 2 ==> s == []
    ensures 2 < |draw| < 7 ==> s == draw[2..]
  {
    var start := if |draw| < 2 then |draw| else 2;
    var end := if |draw| < 7 then |draw| else 7;
    draw[start..end]
  }

  /** The code of one section: the tag followed by the upper-cased suffix. */
  function MakeCode(draw: string): (code: string)
    ensures 4 <= |code| <= 9
    ensures code[..4] == CODE_PREFIX
    ensures code[4..] == Upper(RandomSuffix(draw))
    ensures forall k :: 4 <= k < |code| ==> !IsLowerAscii(code[k])
  {
    CODE_PREFIX + Upper(RandomSuffix(draw))
  }

  /**
   * The section list built for a grid of `gridSize` by `gridSize`, one random
   * draw per section.
   */
  function GenerateSections(gridSize: nat, draws: seq<string>): (r: seq<Section>)
    requires |draws| == gridSize * gridSize
    ensures |r| == gridSize * gridSize
    ensures forall i :: 0 <= i < |r| ==>
      && r[i].id == i
      && !r[i].isUnlocked
      && r[i].code == MakeCode(draws[i])
      && r[i].row == i / gridSize
      && r[i].col == i % gridSize
  {
    seq(gridSize * gridSize, i requires 0 <= i < gridSize * gridSize =>
      Section(i, MakeCode(draws[i]), false, i / gridSize, i % gridSize))
  }

  /** Position `i` of an `n` by `n` grid lies inside the grid, and row-major order recovers it. */
  lemma GridCoordinates(n: nat, i: nat)
    requires i < n * n
    ensures 0 <= i / n < n && 0 <= i % n < n
    ensures (i / n) * n + i % n == i
  {
    assert n > 0;
    var q, r := i / n, i % n;
    assert q * n + r == i;
  }

  /** Every generated section sits inside the grid at the coordinates its id names. */
  lemma GeneratedGrid(gridSize: nat, draws: seq<string>)
    requires |draws| == gridSize * gridSize
    ensures forall s :: s in GenerateSections(gridSize, draws) ==>
      && 0 <= s.row < gridSize
      && 0 <= s.col < gridSize
      && s.row * gridSize + s.col == s.id
      && 0 <= s.id < gridSize * gridSize
  {
    var r := GenerateSections(gridSize, draws);
    forall s | s in r
      ensures 0 <= s.row < gridSize && 0 <= s.col < gridSize
      ensures s.row * gridSize + s.col == s.id && 0 <= s.id < gridSize * gridSize
    {
      var i :| 0 <= i < |r| && r[i] == s;
      GridCoordinates(gridSize, i);
    }
  }

  /** The address a card's QR image encodes. */
  function LinkTarget(baseUrl: string, code: string): string {
    baseUrl + CODE_QUERY + code
  }

  /** The characters a generated code is made of: capitals, digits and the tag's dash. */
  predicate IsCodeChar(c: char) {
    'A' <= c <= 'Z' || '0' <= c <= '9' || c == '-'
  }

  /** A string made only of code characters, which need no escaping in an address. */
  predicate IsUrlSafe(code: string) {
    forall k :: 0 <= k < |code| ==> IsCodeChar(code[k])
  }

  /**
   * A `Math.random().toString(36)` rendering: after the leading `"0."` only
   * base-36 digits (`0`-`9`, `a`-`z`).
   */
  predicate IsBase36Draw(draw: string) {
    forall k :: 2 <= k < |draw| ==> '0' <= draw[k] <= '9' || IsLowerAscii(draw[k])
  }

  /** A code built from a base-36 draw consists of code characters only. */
  lemma MakeCodeUrlSafe(draw: string)
    requires IsBase36Draw(draw)
    ensures IsUrlSafe(MakeCode(draw))
  {
    var code := MakeCode(draw);
    var suffix := RandomSuffix(draw);
    assert forall k :: 0 <= k < |suffix| ==> '0' <= suffix[k] <= '9' || IsLowerAscii(suffix[k]) by {
      var start := if |draw| < 2 then |draw| else 2;
      assert forall k :: 0 <= k < |suffix| ==> suffix[k] == draw[start + k];
    }
    forall k | 0 <= k < |code|
      ensures IsCodeChar(code[k])
    {
      if k < 4 {
        assert code[k] == CODE_PREFIX[k];
      } else {
        assert code[k] == Upper(suffix)[k - 4];
      }
    }
  }

  /** Every code of a game generated from base-36 draws is made of code characters. */
  lemma GeneratedCodesUrlSafe(gridSize: nat, draws: seq<string>)
    requires |draws| == gridSize * gridSize
    requires forall i :: 0 <= i < |draws| ==> IsBase36Draw(draws[i])
    ensures forall s :: s in GenerateSections(gridSize, draws) ==> IsUrlSafe(s.code)
  {
    var r := GenerateSections(gridSize, draws);
    forall s | s in r
      ensures IsUrlSafe(s.code)
    {
      var i :| 0 <= i < |r| && r[i] == s;
      MakeCodeUrlSafe(draws[i]);
    }
  }

  /**
   * The value of a query parameter as it stands in the address: everything up
   * to the next `&` or `#`, which end it.
   */
  function ParamValue(rest: string): (v: string)
    ensures |v| <= |rest| && v == rest[..|v|]
    ensures forall k :: 0 <= k < |v| ==> v[k] != '&' && v[k] != '#'
    ensures |v| < |rest| ==> rest[|v|] == '&' || rest[|v|] == '#'
  {
    if |rest| == 0 || rest[0] == '&' || rest[0] == '#' then ""
    else [rest[0]] + ParamValue(rest[1..])
  }

  /**
   * Reads the `code` parameter out of an address of this page: the value that
   * follows `baseUrl + "?code="`, or nothing when the address has another shape.
   */
  function LinkCode(baseUrl: string, url: string): Option<string> {
    var prefix := baseUrl + CODE_QUERY;
    if |prefix| <= |url| && url[..|prefix|] == prefix then Some(ParamValue(url[|prefix|..])) else None
  }

  /** Reading a share address gives back exactly the code it was built from, for a code of code characters. */
  lemma LinkRoundTrip(baseUrl: string, code: string)
    requires IsUrlSafe(code)
    ensures LinkCode(baseUrl, LinkTarget(baseUrl, code)) == Some(code)
  {
    var prefix := baseUrl + CODE_QUERY;
    var url := LinkTarget(baseUrl, code);
    assert url == prefix + code;
    assert url[..|prefix|] == prefix;
    assert url[|prefix|..] == code;
    var v := ParamValue(code);
    assert |v| == |code|;
    assert v == code[..|code|] == code;
  }

  /** A code containing `&` is cut short when read back, which is why the round trip needs code characters. */
  lemma AmpersandCodeIsCut()
    ensures LinkCode("https://x/", LinkTarget("https://x/", "A&B")) == Some("A")
  {
    var url := LinkTarget("https://x/", "A&B");
    var prefix := "https://x/" + CODE_QUERY;
    assert url[..|prefix|] == prefix;
    assert url[|prefix|..] == "A&B";
    assert ParamValue("A&B") == "A";
  }

  /** `generateQRs`: one card per section, in section order. */
  function ShareLinks(sections: seq<Section>, baseUrl: string): (links: seq<ShareLink>)
    ensures |links| == |sections|
    ensures forall i :: 0 <= i < |links| ==>
      && links[i].id == sections[i].id
      && links[i].code == sections[i].code
      && links[i].target == baseUrl + CODE_QUERY + sections[i].code
  {
    seq(|sections|, i requires 0 <= i < |sections| =>
      ShareLink(sections[i].id, LinkTarget(baseUrl, sections[i].code), sections[i].code))
  }

  /** Every card of a game generated from base-36 draws reads back its own section's code. */
  lemma GeneratedLinksReadBack(gridSize: nat, draws: seq<string>, baseUrl: string)
    requires |draws| == gridSize * gridSize
    requires forall i :: 0 <= i < |draws| ==> IsBase36Draw(draws[i])
    ensures var sections := GenerateSections(gridSize, draws);
            forall i :: 0 <= i < |sections| ==>
              LinkCode(baseUrl, ShareLinks(sections, baseUrl)[i].target) == Some(sections[i].code)
  {
    var sections := GenerateSections(gridSize, draws);
    var links := ShareLinks(sections, baseUrl);
    forall i | 0 <= i < |sections|
      ensures LinkCode(baseUrl, links[i].target) == Some(sections[i].code)
    {
      MakeCodeUrlSafe(draws[i]);
      LinkRoundTrip(baseUrl, sections[i].code);
    }
  }

  /**
   * `handleImageUpload`: with a photo read, builds the sections, saves them
   * with the photo, and only then produces the share links from the saved
   * list. Without a file nothing happens.
   */
  method HandleImageUpload(store: Backend.GameStore, file: Option<string>, gridSize: nat,
                           draws: seq<string>, baseUrl: string)
    returns (links: seq<ShareLink>)
    requires store.Valid()
    requires |draws| == gridSize * gridSize
    modifies store
    ensures store.Valid()
    ensures file.None? ==> links == [] && unchanged(store)
    ensures file.Some? ==>
      && store.doc == Some(Doc(Some(file.value), Some(GenerateSections(gridSize, draws))))
      && links == ShareLinks(store.doc.value.sections.value, baseUrl)
      && store.listeners == old(store.listeners) && store.nextHandle == old(store.nextHandle)
      && store.delivered.Keys == old(store.delivered).Keys
      && (forall h :: h in old(store.listeners) ==> store.delivered[h] == old(store.delivered)[h] + [store.doc])
      && (forall h :: h in old(store.delivered) && h !in old(store.listeners) ==>
            store.delivered[h] == old(store.delivered)[h])
  {
    if file.None? {
      return [];
    }
    var newSections := GenerateSections(gridSize, draws);
    store.Save(Some(file.value), newSections);
    links := ShareLinks(newSections, baseUrl);
  }
}

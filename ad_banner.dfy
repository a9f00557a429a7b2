// The banner ad: the slot id taken from an ad unit id of the form
// "ca-app-pub-<publisher>/<slot>", and the attributes each variant asks for.
module AdBanner {

  const DEFAULT_BANNER_UNIT: string := "ca-app-pub-6687316362787087/7312383307"

  /** The position of the first `c` in `s`. */
  function IndexOf(s: string, c: char): (i: nat)
    requires c in s
    ensures i < |s| && s[i] == c
    ensures forall j :: 0 <= j < i ==> s[j] != c
  {
    if s[0] == c then 0 else 1 + IndexOf(s[1..], c)
  }

  /** `s.split(c)`: the pieces between occurrences of `c`, at least one. */
  function Split(s: string, c: char): (parts: seq<string>)
    ensures |parts| >= 1
    ensures c in s ==> |parts| >= 2
    decreases |s|
  {
    if c in s then [s[..IndexOf(s, c)]] + Split(s[IndexOf(s, c) + 1..], c) else [s]
  }

  /** `parts.join(c)`. */
  function Join(parts: seq<string>, c: char): string
    requires |parts| >= 1
  {
    if |parts| == 1 then parts[0] else parts[0] + [c] + Join(parts[1..], c)
  }

  /** One step of `Split` when the separator occurs. */
  lemma SplitStep(s: string, c: char)
    requires c in s
    ensures Split(s, c) == [s[..IndexOf(s, c)]] + Split(s[IndexOf(s, c) + 1..], c)
  {
  }

  /** No piece of a split contains the separator. */
  lemma {:induction false} SplitPartsFree(s: string, c: char)
    ensures forall k :: 0 <= k < |Split(s, c)| ==> c !in Split(s, c)[k]
    decreases |s|
  {
    if c in s {
      var i := IndexOf(s, c);
      var first, rest := s[..i], s[i + 1..];
      SplitPartsFree(rest, c);
      var later := Split(rest, c);
      SplitStep(s, c);
      assert c !in first by {
        forall j | 0 <= j < |first|
          ensures first[j] != c
        {
          assert first[j] == s[j];
        }
      }
      forall k | 0 <= k < |[first] + later|
        ensures c !in ([first] + later)[k]
      {
        if k > 0 {
          assert ([first] + later)[k] == later[k - 1];
        }
      }
    }
  }

  /** One step of `Join` on a list of two or more pieces. */
  lemma JoinStep(first: string, later: seq<string>, c: char)
    requires |later| >= 1
    ensures Join([first] + later, c) == first + [c] + Join(later, c)
  {
    assert ([first] + later)[1..] == later;
  }

  /** Joining the pieces with the separator gives back the string. */
  lemma {:induction false} JoinSplit(s: string, c: char)
    ensures Join(Split(s, c), c) == s
    decreases |s|
  {
    if c in s {
      var i := IndexOf(s, c);
      var first, rest := s[..i], s[i + 1..];
      JoinSplit(rest, c);
      SplitStep(s, c);
      JoinStep(first, Split(rest, c), c);
      assert s == first + [c] + rest;
    }
  }

  /** `adUnitId.includes('/') ? adUnitId.split('/')[1] : adUnitId`. */
  function SlotId(adUnitId: string): string
  {
    if '/' in adUnitId then Split(adUnitId, '/')[1] else adUnitId
  }

  /** An id without '/' is its own slot id. */
  lemma SlotIdOfPlainId(adUnitId: string)
    requires '/' !in adUnitId
    ensures SlotId(adUnitId) == adUnitId
  {
  }

  /** For an id with '/', the slot id is the text after the first '/' up to
      the next '/' or the end, and holds no '/'. */
  lemma SlotIdAfterFirstSlash(adUnitId: string)
    requires '/' in adUnitId
    ensures var rest := adUnitId[IndexOf(adUnitId, '/') + 1..];
      && '/' !in SlotId(adUnitId)
      && ('/' !in rest ==> SlotId(adUnitId) == rest)
      && ('/' in rest ==> SlotId(adUnitId) == rest[..IndexOf(rest, '/')])
  {
    var rest := adUnitId[IndexOf(adUnitId, '/') + 1..];
    SplitPartsFree(adUnitId, '/');
    assert SlotId(adUnitId) == Split(adUnitId, '/')[1];
    assert Split(adUnitId, '/')[1..] == Split(rest, '/');
  }

  /** `IndexOf` finds the first occurrence wherever it is. */
  lemma {:induction false} IndexOfFirst(s: string, c: char, i: nat)
    requires i < |s| && s[i] == c && c !in s[..i]
    ensures IndexOf(s, c) == i
  {
    if i > 0 {
      assert s[0] == s[..i][0];
      assert s[1..][..i - 1] == s[..i][1..];
      IndexOfFirst(s[1..], c, i - 1);
    }
  }

  /** A unit id `publisher/slot` whose two parts hold no '/' names `slot`. */
  lemma SlotIdOfUnit(publisher: string, slot: string)
    requires '/' !in publisher && '/' !in slot
    ensures SlotId(publisher + "/" + slot) == slot
  {
    var id := publisher + "/" + slot;
    assert id[..|publisher|] == publisher;
    assert id[|publisher|] == '/';
    IndexOfFirst(id, '/', |publisher|);
    assert id[|publisher| + 1..] == slot;
    SlotIdAfterFirstSlash(id);
  }

  /** The default banner unit names slot 7312383307. */
  lemma DefaultBannerSlot()
    ensures SlotId(DEFAULT_BANNER_UNIT) == "7312383307"
  {
    var publisher, slot := "ca-app-pub-6687316362787087", "7312383307";
    assert '/' !in publisher && '/' !in slot;
    assert DEFAULT_BANNER_UNIT == publisher + "/" + slot;
    SlotIdOfUnit(publisher, slot);
  }

  datatype Variant = Standard | Large

  /** The `data-ad-*` attributes and inline size of the `<ins>` element. */
  datatype BannerAttributes = BannerAttributes(
    format: string, fullWidthResponsive: string, width: string, height: string)

  function Attributes(v: Variant): (a: BannerAttributes)
  {
    if v == Large then BannerAttributes("auto", "true", "100%", "auto")
    else BannerAttributes("banner", "false", "320px", "50px")
  }

  /** The large variant asks for 'auto', 'true', '100%' and 'auto', the
      standard one for 'banner', 'false', '320px' and '50px'; so the variants
      differ on every field, and the responsive flag says which was asked for. */
  lemma AttributesDistinguishVariants(v: Variant, w: Variant)
    ensures Attributes(Large) == BannerAttributes("auto", "true", "100%", "auto")
    ensures Attributes(Standard) == BannerAttributes("banner", "false", "320px", "50px")
    ensures Attributes(v).fullWidthResponsive == "true" <==> v == Large
    ensures v != w ==>
      (&& Attributes(v).format != Attributes(w).format
       && Attributes(v).fullWidthResponsive != Attributes(w).fullWidthResponsive
       && Attributes(v).width != Attributes(w).width
       && Attributes(v).height != Attributes(w).height)
  {
  }
}

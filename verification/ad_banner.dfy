/** The advertisement carousel: it auto-advances every few seconds when
    there is more than one ad, and dots jump to a given slide. The interval
    timer is an abstract tick. */
module AdBanner {
  import opened Common

  /** One advertisement; an empty `redirectLink` stands for none. */
  datatype Ad = Ad(media: string, isVideo: bool, redirectLink: string)

  datatype Banner = Banner(ads: seq<Ad>, current: nat)

  /** `ads[current]` is always defined when there are ads. */
  predicate Valid(b: Banner) {
    if b.ads == [] then b.current == 0 else b.current < |b.ads|
  }

  /** The carousel after `GET /advertisements/active`; a failure leaves it
      empty. */
  function Mount(resp: Response<seq<Ad>>): (b: Banner)
    ensures Valid(b) && b.current == 0
    ensures resp.Ok? ==> b.ads == resp.data
    ensures resp.Err? ==> b.ads == []
  {
    Banner(if resp.Ok? then resp.data else [], 0)
  }

  /** The auto-advance interval exists only with more than one ad, that is,
      exactly when the dots are shown. */
  function TimerInstalled(b: Banner): (installed: bool)
    ensures installed ==> |b.ads| > 1
    ensures Valid(b) ==> (installed <==> Render(b).Some? && Render(b).value.dots != [])
  {
    |b.ads| > 1
  }

  /** One tick of the interval: advance cyclically; with one ad or none
      there is no interval and nothing changes. */
  function Tick(b: Banner): (r: Banner)
    ensures r.ads == b.ads
    ensures Valid(b) ==> Valid(r)
    ensures TimerInstalled(b) ==> r.current == (b.current + 1) % |b.ads|
    ensures !TimerInstalled(b) ==> r == b
  {
    if TimerInstalled(b) then b.(current := (b.current + 1) % |b.ads|) else b
  }

  /** A click on dot `i`; dots exist only with more than one ad, one per
      ad. */
  function DotClick(b: Banner, i: nat): (r: Banner)
    ensures r.ads == b.ads
    ensures Valid(b) ==> Valid(r)
    ensures |b.ads| > 1 && i < |b.ads| ==> r.current == i
    ensures !(|b.ads| > 1 && i < |b.ads|) ==> r == b
  {
    if |b.ads| > 1 && i < |b.ads| then b.(current := i) else b
  }

  /** What the banner shows: the current ad, the dots (index and whether it
      is the current one) and the "Learn More" link. */
  datatype Slide = Slide(ad: Ad, dots: seq<bool>, learnMore: Option<string>)

  /** Nothing renders without ads; dots appear only with more than one ad,
      and the link exactly when the current ad has one. */
  function Render(b: Banner): (r: Option<Slide>)
    requires Valid(b)
    ensures r.None? <==> b.ads == []
    ensures r.Some? ==> r.value.ad == b.ads[b.current]
    ensures r.Some? && |b.ads| > 1 ==> |r.value.dots| == |b.ads|
    ensures r.Some? && |b.ads| > 1 ==> forall i :: 0 <= i < |b.ads| ==> (r.value.dots[i] <==> i == b.current)
    ensures r.Some? && |b.ads| <= 1 ==> r.value.dots == []
    ensures r.Some? ==> (r.value.learnMore.Some? <==> b.ads[b.current].redirectLink != "")
    ensures r.Some? && r.value.learnMore.Some? ==> r.value.learnMore.value == b.ads[b.current].redirectLink
  {
    if b.ads == [] then None
    else
      var ad := b.ads[b.current];
      var dots := if |b.ads| > 1 then seq(|b.ads|, i => i == b.current) else [];
      Some(Slide(ad, dots, if ad.redirectLink != "" then Some(ad.redirectLink) else None))
  }

  datatype Event = Ticked | Dot(index: nat)

  function Run(b: Banner, events: seq<Event>): Banner
    decreases |events|
  {
    if events == [] then b
    else
      var next := match events[0] case Ticked => Tick(b) case Dot(i) => DotClick(b, i);
      Run(next, events[1..])
  }

  /** However the carousel is driven after mounting, the current index
      stays within the ads, so the banner can always render. */
  lemma {:induction false} AlwaysInRange(b: Banner, events: seq<Event>)
    requires Valid(b)
    ensures Valid(Run(b, events)) && Run(b, events).ads == b.ads
    ensures b.ads != [] ==> Run(b, events).current < |b.ads|
    decreases |events|
  {
    if events != [] {
      var next := match events[0] case Ticked => Tick(b) case Dot(i) => DotClick(b, i);
      AlwaysInRange(next, events[1..]);
    }
  }
}

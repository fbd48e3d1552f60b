/** The driver roster, src/app/drivers/page.tsx: avatar initials, the order link
    or "ready" line, and the status badge. */
module Drivers {
  import opened Common
  import opened Text

  datatype DriverStatus = Available | MakingDelivery

  datatype Driver = Driver(
    id: string,
    name: string,
    avatarUrl: string,
    status: DriverStatus,
    currentOrderId: Option<string>)

  /** `n[0]` of each part, where the first character of an empty part is
      `undefined`, which `join('')` writes as nothing. */
  function FirstChars(parts: seq<string>): string {
    if |parts| == 0 then ""
    else (if parts[0] == "" then "" else [parts[0][0]]) + FirstChars(parts[1..])
  }

  /** `name.split(' ').map(n => n[0]).join('')`. */
  function Initials(name: string): string {
    FirstChars(Split(name, ' '))
  }

  function NonEmptyCount(parts: seq<string>): nat {
    if |parts| == 0 then 0 else (if parts[0] == "" then 0 else 1) + NonEmptyCount(parts[1..])
  }

  /** Reference reading, scanning the name once: a character is an initial when it
      is not a space and starts the name or follows a space. `atStart` says
      whether the previous character was a space (or there was none). */
  function WordStarts(s: string, atStart: bool): string {
    if |s| == 0 then ""
    else (if s[0] != ' ' && atStart then [s[0]] else "") + WordStarts(s[1..], s[0] == ' ')
  }

  lemma {:induction false} WordStartsSplit(s: string)
    ensures WordStarts(s, true) == FirstChars(Split(s, ' '))
    ensures WordStarts(s, false) == FirstChars(Split(s, ' ')[1..])
  {
    if |s| > 0 {
      var rest := Split(s[1..], ' ');
      WordStartsSplit(s[1..]);
      var parts := Split(s, ' ');
      if s[0] == ' ' {
        assert parts == [""] + rest;
        assert parts[1..] == rest;
      } else {
        assert parts == [[s[0]] + rest[0]] + rest[1..];
        assert parts[1..] == rest[1..];
        assert parts[0][0] == s[0];
      }
    }
  }

  /** The initials are the first letters of the space-separated words: exactly the
      non-space characters that begin the name or follow a space. */
  lemma InitialsAreWordStarts(name: string)
    ensures Initials(name) == WordStarts(name, true)
  {
    WordStartsSplit(name);
  }

  /** One initial per non-empty part: runs of spaces add nothing. */
  lemma {:induction false} FirstCharsLength(parts: seq<string>)
    ensures |FirstChars(parts)| == NonEmptyCount(parts)
  {
    if |parts| > 0 {
      FirstCharsLength(parts[1..]);
    }
  }

  /** The placeholder image service; the text after `text=` is drawn on the avatar. */
  const AvatarBase: string := "https://placehold.co/100x100/E0F8F8/006666?text="

  /** The page's own roster. */
  const DriversData: seq<Driver> := [
    Driver("DRV-001", "John Tembo", AvatarBase + "JT", Available, None),
    Driver("DRV-002", "Maria Phiri", AvatarBase + "MP", MakingDelivery, Some("ORD-002")),
    Driver("DRV-003", "David Banda", AvatarBase + "DB", MakingDelivery, Some("ORD-005")),
    Driver("DRV-004", "Grace Zulu", AvatarBase + "GZ", Available, None),
    Driver("DRV-005", "Peter Mwale", AvatarBase + "PM", Available, None),
    Driver("DRV-006", "Charity Sakala", AvatarBase + "CS", MakingDelivery, Some("ORD-001"))
  ]

  /** A first and last name separated by one space give two initials. */
  lemma TwoWordInitials(first: string, last: string)
    requires |first| > 0 && |last| > 0 && ' ' !in first && ' ' !in last
    ensures Initials(first + " " + last) == [first[0], last[0]]
  {
    SplitAfterPart(first, ' ', last);
    SplitNoSeparator(last, ' ');
    assert first + " " + last == first + [' '] + last;
    assert Split(first + " " + last, ' ') == [first, last];
    assert [first, last][1..] == [last];
    assert FirstChars([last]) == [last[0]] + FirstChars([]);
  }

  lemma RosterAvatarAt(i: nat)
    requires i < |DriversData|
    ensures DriversData[i].avatarUrl == AvatarBase + Initials(DriversData[i].name)
  {
    var names := [("John", "Tembo"), ("Maria", "Phiri"), ("David", "Banda"),
                  ("Grace", "Zulu"), ("Peter", "Mwale"), ("Charity", "Sakala")];
    var (first, last) := names[i];
    assert DriversData[i].name == first + " " + last;
    TwoWordInitials(first, last);
  }

  /** The avatar fallback agrees with the placeholder image: for every driver on
      the roster, the image text is the initials the fallback computes. */
  lemma RosterInitialsMatchAvatars()
    ensures forall i :: 0 <= i < |DriversData| ==> DriversData[i].avatarUrl == AvatarBase + Initials(DriversData[i].name)
  {
    forall i | 0 <= i < |DriversData|
      ensures DriversData[i].avatarUrl == AvatarBase + Initials(DriversData[i].name)
    {
      RosterAvatarAt(i);
    }
  }

  datatype StatusLine = OrderLink(href: string, text: string) | ReadyForNewOrders

  /** The line under the name: a link to the current order while delivering one
      (an empty id counts as none), else "Ready for new orders". */
  function StatusLineOf(d: Driver): StatusLine {
    if d.status == MakingDelivery && d.currentOrderId.Some? && d.currentOrderId.value != "" then
      OrderLink("/orders/" + d.currentOrderId.value, "View Order #" + d.currentOrderId.value)
    else ReadyForNewOrders
  }

  lemma StatusLineSpec(d: Driver)
    ensures StatusLineOf(d).OrderLink? <==>
      d.status == MakingDelivery && d.currentOrderId.Some? && d.currentOrderId.value != ""
    ensures StatusLineOf(d).OrderLink? ==>
      var href := StatusLineOf(d).href;
      |href| > 8 && href[..8] == "/orders/" && href[8..] == d.currentOrderId.value
  {
  }

  function BadgeClass(s: DriverStatus): string {
    match s
    case Available => "bg-green-100 text-green-800 border-green-200"
    case MakingDelivery => "bg-amber-100 text-amber-800 border-amber-200"
  }
}

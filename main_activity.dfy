/**
  The parts of MainActivity that compute something: the session-duration
  text and the stats lines of the About dialog, and the in-place rebuild of
  the four-item tool menu with the click handlers that read it.
*/
module MainScreen {
  import opened Optional
  import Supervision

  // ---------------------------------------------------------------------------
  // Decimal text of a Kotlin Long (string templates call Long.toString)
  // ---------------------------------------------------------------------------

  predicate IsDigit(c: char)
  {
    '0' <= c <= '9'
  }

  predicate AllDigits(s: string)
  {
    forall i :: 0 <= i < |s| ==> IsDigit(s[i])
  }

  function DigitChar(d: int): (c: char)
    requires 0 <= d < 10
    ensures IsDigit(c) && c as int - '0' as int == d
  {
    ('0' as int + d) as char
  }

  /** The decimal digits of `n`, most significant first, without leading zeros. */
  function NatText(n: nat): (s: string)
    ensures |s| >= 1 && AllDigits(s)
    ensures s[0] == '0' ==> n == 0 && |s| == 1
    decreases n
  {
    if n < 10 then [DigitChar(n)] else NatText(n / 10) + [DigitChar(n % 10)]
  }

  /** The value of a string of decimal digits; the reference reading of `NatText`. */
  function DigitsValue(s: string): nat
    requires AllDigits(s)
  {
    if |s| == 0 then 0 else DigitsValue(s[..|s| - 1]) * 10 + (s[|s| - 1] as int - '0' as int)
  }

  lemma {:induction false} NatTextReadsBack(n: nat)
    ensures DigitsValue(NatText(n)) == n
    decreases n
  {
    var s := NatText(n);
    if n >= 10 {
      NatTextReadsBack(n / 10);
      assert s[..|s| - 1] == NatText(n / 10);
    }
  }

  /** Long.toString: a minus sign before the digits of the magnitude. */
  function LongText(n: int): (s: string)
    ensures |s| >= 1
    ensures (s[0] == '-') <==> n < 0
    ensures n < 0 ==> |s| >= 2 && AllDigits(s[1..]) && s[1] != '0'
    ensures n >= 0 ==> AllDigits(s) && (s[0] == '0' ==> n == 0 && |s| == 1)
  {
    if n < 0 then "-" + NatText(-n) else NatText(n)
  }

  /** Reads back an optionally negative decimal numeral; `None` if it is not one. */
  function ParseLong(s: string): (r: Option<int>)
  {
    if |s| > 1 && s[0] == '-' && AllDigits(s[1..]) then Some(-(DigitsValue(s[1..]) as int))
    else if |s| > 0 && AllDigits(s) then Some(DigitsValue(s))
    else None
  }

  lemma LongTextReadsBack(n: int)
    ensures ParseLong(LongText(n)) == Some(n)
  {
    var s := LongText(n);
    if n < 0 {
      assert s[1..] == NatText(-n);
      NatTextReadsBack(-n);
    } else {
      NatTextReadsBack(n);
    }
  }

  // ---------------------------------------------------------------------------
  // Session duration
  // ---------------------------------------------------------------------------

  /** Kotlin's `/` on Long: the quotient rounded toward zero. */
  function TruncDiv(a: int, b: int): (q: int)
    requires b > 0
    ensures a >= 0 ==> 0 <= q && q * b <= a < q * b + b
    ensures a < 0 ==> q <= 0 && q * b - b < a <= q * b
  {
    if a >= 0 then
      FloorQuotient(a, b);
      a / b
    else
      FloorQuotient(-a, b);
      -((-a) / b)
  }

  /** Dafny's `/` on a non-negative dividend: the largest multiple of `b` not above it. */
  lemma FloorQuotient(a: int, b: int)
    requires a >= 0 && b > 0
    ensures 0 <= a / b && (a / b) * b <= a < (a / b) * b + b
  {
  }

  const MsPerMinute: int := 1000 * 60
  const MsPerHour: int := 1000 * 60 * 60

  datatype TimeUnit = Seconds | Minutes | Hours

  function UnitName(u: TimeUnit): string
  {
    match u
    case Seconds => "seconds"
    case Minutes => "minutes"
    case Hours => "hours"
  }

  datatype Duration = Duration(amount: int, unit: TimeUnit)

  /** Two truncating divisions of a non-negative number are one by the product. */
  lemma NestedQuotient(a: int, b: int, c: int)
    requires a >= 0 && b > 0 && c > 0
    ensures var q := TruncDiv(TruncDiv(a, b), c); q * (b * c) <= a < q * (b * c) + b * c
  {
    var q1 := TruncDiv(a, b);
    var q := TruncDiv(q1, c);
    assert q * c <= q1 <= q * c + c - 1;
    assert q * c * b <= q1 * b by {
      MulMonotone(q * c, q1, b);
    }
    assert q1 * b <= (q * c + c - 1) * b by {
      MulMonotone(q1, q * c + c - 1, b);
    }
    assert (q * c + c - 1) * b == q * (b * c) + b * c - b;
  }

  lemma MulMonotone(x: int, y: int, k: int)
    requires x <= y && k > 0
    ensures x * k <= y * k
  {
  }

  /**
    The number and unit the About dialog shows for a session of `d`
    milliseconds: whole seconds under a minute, whole minutes under an hour,
    whole hours beyond.
  */
  function DurationOf(d: int): (r: Duration)
    ensures r.unit == Seconds <==> d < MsPerMinute
    ensures r.unit == Minutes <==> MsPerMinute <= d < MsPerHour
    ensures r.unit == Hours <==> MsPerHour <= d
    ensures r.unit == Seconds ==> (r.amount < 60 &&
      (d >= 0 ==> 0 <= r.amount && r.amount * 1000 <= d < r.amount * 1000 + 1000) &&
      (d < 0 ==> r.amount <= 0 && r.amount * 1000 - 1000 < d <= r.amount * 1000))
    ensures r.unit == Minutes ==> (1 <= r.amount <= 59 &&
      r.amount * MsPerMinute <= d < r.amount * MsPerMinute + MsPerMinute)
    ensures r.unit == Hours ==> (1 <= r.amount &&
      r.amount * MsPerHour <= d < r.amount * MsPerHour + MsPerHour)
  {
    if d < 1000 * 60 then
      Duration(TruncDiv(d, 1000), Seconds)
    else if d < 1000 * 60 * 60 then
      NestedQuotient(d, 1000, 60);
      Duration(TruncDiv(TruncDiv(d, 1000), 60), Minutes)
    else
      NestedQuotient(d, 1000, 60);
      NestedQuotient(TruncDiv(d, 1000), 60, 60);
      HourQuotient(d);
      Duration(TruncDiv(TruncDiv(TruncDiv(d, 1000), 60), 60), Hours)
  }

  lemma HourQuotient(d: int)
    requires d >= 0
    ensures var q := TruncDiv(TruncDiv(TruncDiv(d, 1000), 60), 60);
      q * MsPerHour <= d < q * MsPerHour + MsPerHour
  {
    var q2 := TruncDiv(TruncDiv(d, 1000), 60);
    NestedQuotient(d, 1000, 60);
    var q := TruncDiv(q2, 60);
    assert q * 60 <= q2 <= q * 60 + 59;
    MulMonotone(q * 60, q2, MsPerMinute);
    MulMonotone(q2, q * 60 + 59, MsPerMinute);
  }

  /** `durationText`: the number, a space, and the plural unit name. */
  function DurationText(d: int): (t: string)
    ensures var r := DurationOf(d); var k := |t| - |UnitName(r.unit)| - 1;
      0 < k && t[k..] == " " + UnitName(r.unit) && ParseLong(t[..k]) == Some(r.amount)
    ensures var r := DurationOf(d); t[..|t| - |UnitName(r.unit)| - 1] == LongText(r.amount)
  {
    var r := DurationOf(d);
    var t := LongText(r.amount) + " " + UnitName(r.unit);
    LongTextReadsBack(r.amount);
    assert t[..|LongText(r.amount)|] == LongText(r.amount);
    t
  }

  /**
    A session that started in the future (the clock was set back) reads as
    zero or negative whole seconds, truncated toward zero.
  */
  lemma ClockSetBackShowsNegativeSeconds()
    ensures forall d :: d < 0 ==> DurationOf(d).unit == Seconds && DurationOf(d).amount <= 0
    ensures DurationOf(-1500) == Duration(-1, Seconds)
    ensures DurationOf(-999) == Duration(0, Seconds)
  {
  }

  // ---------------------------------------------------------------------------
  // Stats lines of the About dialog
  // ---------------------------------------------------------------------------

  /**
    What the About action reads from a running service: the session length,
    and the transferred total and repository size already rendered by
    `readableFileSize` (whose floating-point formatting is not modelled).
  */
  datatype Session = Session(durationMs: int, transferred: string, repoSize: string)

  const OfflineStats: string := "- Node is offline"
  const TransferredLabel: string := "- Transferred this session: "
  const DurationLabel: string := "- Current session duration: "
  const RepoSizeLabel: string := "- Repo file size: "

  /** The three parts of a concatenation, read back by slicing. */
  lemma ThreeParts(a: string, b: string, c: string)
    ensures var t := a + b + c;
      t[..|a|] == a && t[|a|..|a| + |b|] == b && t[|a| + |b|..] == c && (|a| > 2 ==> t[2] == a[2])
  {
  }

  /**
    The stats part of the About text: the offline line when there is no
    service instance, otherwise three lines (the trimmed margin of the raw
    string) with the duration on the second.
  */
  function StatsText(session: Option<Session>): (t: string)
    ensures session.None? <==> t == OfflineStats
    ensures session.Some? ==>
      var prefix := TransferredLabel + session.value.transferred + "\n" + DurationLabel;
      var dt := DurationText(session.value.durationMs);
      |t| >= |prefix| + |dt| && t[..|prefix|] == prefix && t[|prefix|..|prefix| + |dt|] == dt &&
      t[|prefix| + |dt|..] == "\n" + RepoSizeLabel + session.value.repoSize
  {
    match session
    case None => OfflineStats
    case Some(s) =>
      var prefix := TransferredLabel + s.transferred + "\n" + DurationLabel;
      var dt := DurationText(s.durationMs);
      var rest := "\n" + RepoSizeLabel + s.repoSize;
      ThreeParts(prefix, dt, rest);
      assert prefix[2] == TransferredLabel[2] != OfflineStats[2];
      prefix + dt + rest
  }

  // ---------------------------------------------------------------------------
  // The tool menu
  // ---------------------------------------------------------------------------

  datatype ListItemType = Header | RowItem | EmptyDescription

  /** The closures of the four rows, by what they do. */
  datatype MenuAction = OpenDashboard | PromptForLink | RequestShutdown | ShowAbout

  /** A row of the list; the icon resource is not modelled. */
  datatype ListItem = ListItem(kind: ListItemType, title: string, text: string, canDelete: bool, action: Option<MenuAction>)

  /** What running a row's action starts. */
  datatype Effect =
    | ViewUrl(url: string)                                  // view the URL, then finish
    | AskForAddress(prompt: string)                         // the "Go" dialog, which hands its text to the link opener
    | SendToService(serviceAction: Option<string>)          // startService with the intent extra, then finish
    | ShowInfo(title: string, stats: string)                // the About dialog

  const WebUiUrl: string := "http://localhost:5001/webui"

  function EffectOf(a: MenuAction, session: Option<Session>): (e: Effect)
    ensures a == OpenDashboard <==> e == ViewUrl(WebUiUrl)
    ensures a == PromptForLink <==> e.AskForAddress?
    ensures a == RequestShutdown <==> e.SendToService?
    ensures a == ShowAbout <==> e.ShowInfo?
    ensures e.SendToService? ==> e.serviceAction == Some(Supervision.ShutdownAction)
    ensures e.ShowInfo? ==> e.stats == StatsText(session)
  {
    match a
    case OpenDashboard => ViewUrl(WebUiUrl)
    case PromptForLink => AskForAddress("Enter address or hash")
    case RequestShutdown => SendToService(Some("shutdown"))
    case ShowAbout => ShowInfo("IPFS Tools", StatsText(session))
  }

  function Titles(items: seq<ListItem>): (ts: seq<string>)
    ensures |ts| == |items| && forall i :: 0 <= i < |items| ==> ts[i] == items[i].title
  {
    if |items| == 0 then [] else Titles(items[..|items| - 1]) + [items[|items| - 1].title]
  }

  /** The outcome of a tap on row `idx`. */
  datatype Click = Ran(action: MenuAction) | NoAction | IndexOutOfBounds

  /** The outcome of a long press on row `idx`. */
  datatype LongPress = ConfirmDelete(title: string) | NotDeletable | OutOfBounds

  class MainActivity {
    var listItems: seq<ListItem>

    constructor ()
      ensures listItems == []
    {
      listItems := [];
    }

    /** `updateListItems`: clear the list, then append the four tool rows. */
    method UpdateListItems()
      modifies this
      ensures Titles(listItems) == ["Dashboard", "Open link", "Shutdown", "About"]
      ensures forall i :: 0 <= i < |listItems| ==>
        listItems[i].kind == RowItem && !listItems[i].canDelete && listItems[i].action.Some?
      ensures |listItems| == 4 && listItems[0].action == Some(OpenDashboard) &&
        listItems[1].action == Some(PromptForLink) && listItems[2].action == Some(RequestShutdown) &&
        listItems[3].action == Some(ShowAbout)
    {
      listItems := [];
      listItems := listItems + [ListItem(RowItem, "Dashboard", "Open the WebUI", false, Some(OpenDashboard))];
      listItems := listItems + [ListItem(RowItem, "Open link", "Enter an IPFS address", false, Some(PromptForLink))];
      listItems := listItems + [ListItem(RowItem, "Shutdown", "Stop the IPFS node", false, Some(RequestShutdown))];
      listItems := listItems + [ListItem(RowItem, "About", "More info about this app", false, Some(ShowAbout))];
    }

    /** `onClick`: run the tapped row's action, if it has one. */
    method OnClick(idx: int) returns (r: Click)
      ensures r == IndexOutOfBounds <==> !(0 <= idx < |listItems|)
      ensures r.Ran? <==> 0 <= idx < |listItems| && listItems[idx].action.Some?
      ensures r.Ran? ==> r.action == listItems[idx].action.value
    {
      if !(0 <= idx < |listItems|) {
        return IndexOutOfBounds;
      }
      var item := listItems[idx];
      if item.action.Some? {
        r := Ran(item.action.value);
      } else {
        r := NoAction;
      }
    }

    /** `onLongClick`: offer to delete the held row, only when it can be deleted. */
    method OnLongClick(idx: int) returns (r: LongPress)
      ensures r == OutOfBounds <==> !(0 <= idx < |listItems|)
      ensures r.ConfirmDelete? <==> 0 <= idx < |listItems| && listItems[idx].canDelete
      ensures r.ConfirmDelete? ==> r.title == listItems[idx].title
    {
      if !(0 <= idx < |listItems|) {
        return OutOfBounds;
      }
      var item := listItems[idx];
      if !item.canDelete {
        return NotDeletable;
      }
      r := ConfirmDelete(item.title);
    }
  }

  /**
    After the rebuild, tapping the third row sends the shutdown request the
    service acts on, and no row can be long-pressed into the delete dialog.
  */
  method RebuiltMenuScenario(activity: MainActivity, idx: int, session: Option<Session>)
    returns (tap: Click, press: LongPress)
    modifies activity
    ensures tap == Ran(RequestShutdown)
    ensures EffectOf(tap.action, session) == SendToService(Some(Supervision.ShutdownAction))
    ensures !press.ConfirmDelete?
  {
    activity.UpdateListItems();
    tap := activity.OnClick(2);
    press := activity.OnLongClick(idx);
  }
}

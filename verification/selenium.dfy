/**
 * The decision logic of the selenium helpers (core/selenium.py): parsing the webdriver type,
 * rejecting option combinations a driver does not support, the viewport containment test,
 * finding a newly opened window, the scroll stability check and character-wise typing. The
 * browser is not modelled: what it reports (window handles, offsets, sizes) is a parameter.
 */
module Selenium {
  import opened Wrappers

  // ---------------------------------------------------------------- webdriver type

  datatype DriverType = Chrome | Chromium | Firefox | IE | Edge | Opera

  /** The enum value of each driver type. */
  function Name(t: DriverType): string
  {
    match t
    case Chrome => "CHROME"
    case Chromium => "CHROMIUM"
    case Firefox => "FIREFOX"
    case IE => "IE"
    case Edge => "EDGE"
    case Opera => "OPERA"
  }

  /** The driver type with the given enum value, if any. */
  function FromName(s: string): (r: Option<DriverType>)
    ensures r.Some? ==> Name(r.value) == s
    ensures r.None? ==> forall t: DriverType :: Name(t) != s
  {
    if s == "CHROME" then Some(Chrome)
    else if s == "CHROMIUM" then Some(Chromium)
    else if s == "FIREFOX" then Some(Firefox)
    else if s == "IE" then Some(IE)
    else if s == "EDGE" then Some(Edge)
    else if s == "OPERA" then Some(Opera)
    else None
  }

  function UpperChar(c: char): char
  {
    if 'a' <= c <= 'z' then (c as int - 32) as char else c
  }

  function LowerChar(c: char): char
  {
    if 'A' <= c <= 'Z' then (c as int + 32) as char else c
  }

  /** `str.upper` on ASCII letters. */
  function Upper(s: string): (r: string)
    ensures |r| == |s| && forall i :: 0 <= i < |s| ==> r[i] == UpperChar(s[i])
  {
    seq(|s|, i requires 0 <= i < |s| => UpperChar(s[i]))
  }

  function Lower(s: string): (r: string)
    ensures |r| == |s| && forall i :: 0 <= i < |s| ==> r[i] == LowerChar(s[i])
  {
    seq(|s|, i requires 0 <= i < |s| => LowerChar(s[i]))
  }

  /** What a configuration may hold in the type field: an enum member, a string, or anything else. */
  datatype DriverInput = Member(member: DriverType) | Text(text: string) | OtherValue

  /**
   * `WebdriverType.validate`: members pass through, strings are upper-cased and must then name
   * a member, everything else is rejected.
   */
  function ValidateDriver(v: DriverInput): (r: Result<DriverType>)
    ensures v.Member? ==> r == Success(v.member)
    ensures v.OtherValue? ==> r.Failure?
    ensures v.Text? ==> (r.Success? <==> exists t: DriverType :: Name(t) == Upper(v.text))
    ensures v.Text? && r.Success? ==> Name(r.value) == Upper(v.text)
  {
    match v
    case Member(t) => Success(t)
    case Text(s) =>
      (match FromName(Upper(s))
       case Some(t) => Success(t)
       case None => Failure("value is not a valid enumeration member"))
    case OtherValue => Failure("value is not a valid enumeration member")
  }

  /** Every enum value names no lower-case letter, so upper-casing leaves it alone. */
  lemma UpperOfName(t: DriverType)
    ensures Upper(Name(t)) == Name(t)
  {
  }

  /** Parsing is case-insensitive: a member's value in lower case, or as it is, parses to that member. */
  lemma ValidateAnyCase(t: DriverType)
    ensures ValidateDriver(Text(Name(t))) == Success(t)
    ensures ValidateDriver(Text(Lower(Name(t)))) == Success(t)
  {
    UpperOfName(t);
    var l := Lower(Name(t));
    assert Upper(l) == Name(t);
  }

  // ---------------------------------------------------------------- selenium config

  /** The fields of `SeleniumConfig` the validators look at. */
  datatype SeleniumConfig = SeleniumConfig(driverType: DriverType, headless: bool, arguments: seq<string>)

  /**
   * Loading a selenium configuration: the type must parse; Edge takes no extra arguments, and
   * neither IE nor Edge runs headless. The type comes back normalised.
   */
  function ValidateSelenium(typeValue: DriverInput, headless: bool, arguments: seq<string>): (r: Result<SeleniumConfig>)
    ensures r.Success? <==>
              ValidateDriver(typeValue).Success?
              && !(ValidateDriver(typeValue).value == Edge && |arguments| > 0)
              && !((ValidateDriver(typeValue).value == IE || ValidateDriver(typeValue).value == Edge) && headless)
    ensures r.Success? ==> r.value == SeleniumConfig(ValidateDriver(typeValue).value, headless, arguments)
  {
    match ValidateDriver(typeValue)
    case Failure(e) => Failure(e)
    case Success(t) =>
      if t == Edge && |arguments| > 0 then Failure("Edge does not support webdriver arguments")
      else if (t == IE || t == Edge) && headless then Failure("Edge and IE do not support headless mode")
      else Success(SeleniumConfig(t, headless, arguments))
  }

  /** Chrome, Chromium, Firefox and Opera accept every combination of headless mode and arguments. */
  lemma OtherDriversUnrestricted(t: DriverType, headless: bool, arguments: seq<string>)
    requires t != IE && t != Edge
    ensures ValidateSelenium(Member(t), headless, arguments) == Success(SeleniumConfig(t, headless, arguments))
  {
  }

  // ---------------------------------------------------------------- viewport

  /** A rectangle by its top-left corner and size, in pixels. */
  datatype Rect = Rect(x: int, y: int, width: int, height: int)

  /** `element_in_viewport`: the element's rectangle lies within the window's, bounds inclusive. */
  predicate InViewport(elem: Rect, window: Rect)
  {
    window.x <= elem.x && window.x + window.width >= elem.x + elem.width
    && window.y <= elem.y && window.y + window.height >= elem.y + elem.height
  }

  predicate ContainsPoint(r: Rect, px: int, py: int)
  {
    r.x <= px <= r.x + r.width && r.y <= py <= r.y + r.height
  }

  /** For a rectangle of non-negative size, being in the viewport means every one of its points is in the window. */
  lemma InViewportIffAllPoints(elem: Rect, window: Rect)
    requires elem.width >= 0 && elem.height >= 0
    ensures InViewport(elem, window) <==>
              forall px, py :: ContainsPoint(elem, px, py) ==> ContainsPoint(window, px, py)
  {
    if forall px, py :: ContainsPoint(elem, px, py) ==> ContainsPoint(window, px, py) {
      assert ContainsPoint(elem, elem.x, elem.y);
      assert ContainsPoint(elem, elem.x + elem.width, elem.y + elem.height);
    }
  }

  // ---------------------------------------------------------------- new window

  function Elements(s: seq<string>): set<string>
  {
    set x | x in s
  }

  /**
   * `get_new_window`: when the handle list grew, a handle present after but not before; `pop`
   * on an empty difference (only possible with repeated handles) raises. The handle taken is
   * the first such one in `after`.
   */
  method GetNewWindow(before: seq<string>, after: seq<string>) returns (r: Result<Option<string>>)
    ensures |after| <= |before| ==> r == Success(None)
    ensures |after| > |before| ==> (r.Success? <==> exists h :: h in after && h !in before)
    ensures r.Success? && r.value.Some? ==> r.value.value in after && r.value.value !in before
  {
    if |after| <= |before| {
      return Success(None);
    }
    var i := 0;
    while i < |after|
      invariant 0 <= i <= |after|
      invariant forall j :: 0 <= j < i ==> after[j] in before
    {
      if after[i] !in before {
        return Success(Some(after[i]));
      }
      i := i + 1;
    }
    return Failure("pop from an empty set");
  }

  predicate Distinct(s: seq<string>)
  {
    forall i, j :: 0 <= i < j < |s| ==> s[i] != s[j]
  }

  lemma {:induction false} ElementsBound(s: seq<string>)
    ensures |Elements(s)| <= |s|
    ensures Distinct(s) ==> |Elements(s)| == |s|
    decreases |s|
  {
    if |s| > 0 {
      ElementsBound(s[1..]);
      assert Elements(s) == {s[0]} + Elements(s[1..]);
      if Distinct(s) {
        assert s[0] !in Elements(s[1..]);
      }
    }
  }

  /** With distinct handles, a grown handle list always has a new window to return. */
  lemma GrowthHasNewWindow(before: seq<string>, after: seq<string>)
    requires Distinct(after) && |after| > |before|
    ensures exists h :: h in after && h !in before
  {
    ElementsBound(before);
    ElementsBound(after);
    if forall h :: h in after ==> h in before {
      SubsetCard(Elements(after), Elements(before));
      assert false;
    }
  }

  lemma SubsetCard(a: set<string>, b: set<string>)
    requires a <= b
    ensures |a| <= |b|
  {
    assert b == a + (b - a);
  }

  // ---------------------------------------------------------------- scroll

  /** `WaitForScrollFinish`: the last vertical offset seen. */
  datatype ScrollWait = ScrollWait(yPos: int)

  /** `check_stable`: stable iff the offset has not moved since the last check; the new offset is remembered. */
  function CheckStable(w: ScrollWait, current: int): (r: (bool, ScrollWait))
    ensures r.0 <==> current == w.yPos
    ensures r.1.yPos == current
  {
    if current == w.yPos then (true, w) else (false, ScrollWait(current))
  }

  /** Two checks that read the same offset: the second one always reports stability. */
  lemma SecondEqualReadingStable(w: ScrollWait, current: int)
    ensures CheckStable(CheckStable(w, current).1, current).0
  {
  }

  // ---------------------------------------------------------------- typing

  /** What `slow_type` does to the element: send a key, or pause. */
  datatype TypeEvent = SendKey(key: char) | Pause

  /** The keys sent, read back from the events. */
  function KeysSent(events: seq<TypeEvent>): string
  {
    if |events| == 0 then []
    else (if events[0].SendKey? then [events[0].key] else []) + KeysSent(events[1..])
  }

  lemma {:induction false} KeysSentConcat(a: seq<TypeEvent>, b: seq<TypeEvent>)
    ensures KeysSent(a + b) == KeysSent(a) + KeysSent(b)
    decreases |a|
  {
    if |a| > 0 {
      KeysSentConcat(a[1..], b);
      assert (a + b)[1..] == a[1..] + b;
    } else {
      assert a + b == b;
    }
  }

  /** Sending one more key and pausing adds exactly that key to what was sent. */
  lemma KeysSentStep(events: seq<TypeEvent>, c: char)
    ensures KeysSent(events + [SendKey(c), Pause]) == KeysSent(events) + [c]
  {
    KeysSentConcat(events, [SendKey(c), Pause]);
    var step := [SendKey(c), Pause];
    assert step[1..] == [Pause] && [Pause][1..] == [];
  }

  /**
   * `slow_type`: each character is sent once, in order, each followed by a pause; read back,
   * the keys sent are exactly the text.
   */
  method SlowType(text: string) returns (events: seq<TypeEvent>)
    ensures |events| == 2 * |text|
    ensures forall i :: 0 <= i < |text| ==> events[2 * i] == SendKey(text[i]) && events[2 * i + 1] == Pause
    ensures KeysSent(events) == text
  {
    events := [];
    var i := 0;
    while i < |text|
      invariant 0 <= i <= |text| && |events| == 2 * i
      invariant forall j :: 0 <= j < i ==> events[2 * j] == SendKey(text[j]) && events[2 * j + 1] == Pause
      invariant KeysSent(events) == text[..i]
    {
      KeysSentStep(events, text[i]);
      assert text[..i + 1] == text[..i] + [text[i]];
      events := events + [SendKey(text[i]), Pause];
      i := i + 1;
    }
    assert text[..i] == text;
  }
}

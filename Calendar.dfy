/**
  The calendar widget's container: the configuration check, the XPath that
  retrieves the events, the view it hands to the presentational calendar, the
  choice of host call each gesture makes, the optimistic update of the event
  list after a drag and drop, and the subscriptions it keeps on the context
  object.
 */
module Calendar {
  import opened Wrappers
  import opened Host
  import StyleParser

  // ---------------------------------------------------------------------------
  // Properties
  // ---------------------------------------------------------------------------

  /** `OnClickEventOptions`, the choice made for each gesture. */
  datatype ActionKind = DoNothing | CallMicroflow | CallNanoflow

  datatype Editable = Default | Never

  datatype DataSource = XPath | Microflow

  /** The three gestures the calendar reacts to. */
  datatype Gesture = ClickEvent | ClickSlot | DropEvent

  /** The widget's properties, as far as the modelled logic reads them. A missing object is None. */
  datatype CalendarProps = CalendarProps(
    mxObject: Option<MxObject>,
    style: string,
    titleAttribute: string,
    startAttribute: string,
    endAttribute: string,
    eventColor: string,
    startPositionAttribute: string,
    dataSource: DataSource,
    eventEntity: string,
    entityConstraint: string,
    firstDayAttribute: string,
    firstDayOfTheWeek: int,
    dataSourceMicroflow: string,
    selectable: bool,
    editable: Editable,
    onClickEvent: ActionKind,
    eventMicroflow: string,
    eventNanoflow: Nanoflow,
    onClickSlotEvent: ActionKind,
    slotMicroflow: string,
    slotNanoflow: Nanoflow,
    onDropEvent: ActionKind,
    onDropMicroflow: string,
    onDropNanoflow: Nanoflow)

  function KindOf(p: CalendarProps, g: Gesture): ActionKind {
    match g
    case ClickEvent => p.onClickEvent
    case ClickSlot => p.onClickSlotEvent
    case DropEvent => p.onDropEvent
  }

  function MicroflowOf(p: CalendarProps, g: Gesture): string {
    match g
    case ClickEvent => p.eventMicroflow
    case ClickSlot => p.slotMicroflow
    case DropEvent => p.onDropMicroflow
  }

  function NanoflowOf(p: CalendarProps, g: Gesture): Nanoflow {
    match g
    case ClickEvent => p.eventNanoflow
    case ClickSlot => p.slotNanoflow
    case DropEvent => p.onDropNanoflow
  }

  /** The gesture is set to call a microflow or nanoflow, but none is selected. */
  predicate MissingTarget(p: CalendarProps, g: Gesture) {
    || (KindOf(p, g) == CallMicroflow && MicroflowOf(p, g) == "")
    || (KindOf(p, g) == CallNanoflow && NanoflowOf(p, g).body.None?)
  }

  // ---------------------------------------------------------------------------
  // validateProps
  // ---------------------------------------------------------------------------

  datatype Target = MicroflowTarget | NanoflowTarget

  /** One configuration rule: the gesture calls this kind of target, and one must be selected. */
  datatype Rule = Rule(gesture: Gesture, target: Target)

  predicate Violated(p: CalendarProps, r: Rule) {
    match r.target
    case MicroflowTarget => KindOf(p, r.gesture) == CallMicroflow && MicroflowOf(p, r.gesture) == ""
    case NanoflowTarget => KindOf(p, r.gesture) == CallNanoflow && NanoflowOf(p, r.gesture).body.None?
  }

  /** The order in which the rules are checked; only the first one violated is reported. */
  const RuleOrder: seq<Rule> := [
    Rule(ClickEvent, MicroflowTarget), Rule(ClickSlot, MicroflowTarget), Rule(DropEvent, MicroflowTarget),
    Rule(ClickEvent, NanoflowTarget), Rule(DropEvent, NanoflowTarget), Rule(ClickSlot, NanoflowTarget)]

  // The messages of validateProps, word for word.
  const ClickEventMicroflowMissing := "On click event is set to 'Call a microflow' but no microflow is selected"
  const ClickSlotMicroflowMissing := "On click slot is set to 'Call a microflow' but no microflow is selected"
  const DropEventMicroflowMissing := "On drop event is set to 'Call a microflow' but no microflow is selected"
  const ClickEventNanoflowMissing := "On click event is set to 'Call a nanoflow' but no nanoflow is selected"
  const DropEventNanoflowMissing := "On drop event is set to 'Call a nanoflow' but no nanoflow is selected"
  const ClickSlotNanoflowMissing := "On click slot is set to 'Call a nanoflow' but no nanoflow is selected"

  /** The message a violated rule is reported with. */
  function Message(r: Rule): (m: string)
    ensures |m| > 0
  {
    match r
    case Rule(ClickEvent, MicroflowTarget) => ClickEventMicroflowMissing
    case Rule(ClickSlot, MicroflowTarget) => ClickSlotMicroflowMissing
    case Rule(DropEvent, MicroflowTarget) => DropEventMicroflowMissing
    case Rule(ClickEvent, NanoflowTarget) => ClickEventNanoflowMissing
    case Rule(DropEvent, NanoflowTarget) => DropEventNanoflowMissing
    case Rule(ClickSlot, NanoflowTarget) => ClickSlotNanoflowMissing
  }

  const Banner := "Error in calendar configuration: "

  const InvalidFirstDay := "Invalid first day of the week value"

  /** The position of the first violated rule at or after `k`, or |rules| when there is none. */
  function FirstViolatedFrom(p: CalendarProps, rules: seq<Rule>, k: nat): (i: nat)
    requires k <= |rules|
    ensures k <= i <= |rules|
    ensures forall j :: k <= j < i ==> !Violated(p, rules[j])
    ensures i < |rules| ==> Violated(p, rules[i])
    decreases |rules| - k
  {
    if k == |rules| then k
    else if Violated(p, rules[k]) then k
    else FirstViolatedFrom(p, rules, k + 1)
  }

  /** The position of the first violated rule, or |rules| when none is violated. */
  function FirstViolatedIndex(p: CalendarProps, rules: seq<Rule>): (i: nat)
    ensures i <= |rules|
    ensures forall j :: 0 <= j < i ==> !Violated(p, rules[j])
    ensures i < |rules| ==> Violated(p, rules[i])
  {
    FirstViolatedFrom(p, rules, 0)
  }

  /**
    `CalendarContainer.validateProps`: the first misconfigured gesture, in rule
    order and behind the banner, or "" when there is none; a first day of the
    week beyond Saturday (6) overrides everything else.
   */
  function ValidateProps(p: CalendarProps): (msg: string)
    ensures p.firstDayOfTheWeek > 6 ==> msg == InvalidFirstDay
  {
    var errorMessage := ConfigurationError(p);
    var withBanner := if errorMessage != "" then Banner + errorMessage else errorMessage;
    if p.firstDayOfTheWeek > 6 then InvalidFirstDay else withBanner
  }

  /** The if/else chain of `validateProps`: the message of the first misconfigured gesture, or "". */
  function ConfigurationError(p: CalendarProps): string {
      if p.onClickEvent == CallMicroflow && p.eventMicroflow == "" then
        ClickEventMicroflowMissing
      else if p.onClickSlotEvent == CallMicroflow && p.slotMicroflow == "" then
        ClickSlotMicroflowMissing
      else if p.onDropEvent == CallMicroflow && p.onDropMicroflow == "" then
        DropEventMicroflowMissing
      else if p.onClickEvent == CallNanoflow && p.eventNanoflow.body.None? then
        ClickEventNanoflowMissing
      else if p.onDropEvent == CallNanoflow && p.onDropNanoflow.body.None? then
        DropEventNanoflowMissing
      else if p.onClickSlotEvent == CallNanoflow && p.slotNanoflow.body.None? then
        ClickSlotNanoflowMissing
      else ""
  }

  /**
    Below the override, the message is that of the first violated rule in
    rule order, behind the banner, or "" when no rule is violated.
   */
  lemma ValidatePropsFirstViolated(p: CalendarProps)
    requires p.firstDayOfTheWeek <= 6
    ensures var i := FirstViolatedIndex(p, RuleOrder);
      ValidateProps(p) == if i == |RuleOrder| then "" else Banner + Message(RuleOrder[i])
  {
    ConfigurationErrorFirstViolated(p);
  }

  /** The chain reports the message of the first violated rule in rule order. */
  lemma ConfigurationErrorFirstViolated(p: CalendarProps)
    ensures var i := FirstViolatedIndex(p, RuleOrder);
      ConfigurationError(p) == if i == |RuleOrder| then "" else Message(RuleOrder[i])
  {
    var rs := RuleOrder;
    assert rs[0] == Rule(ClickEvent, MicroflowTarget) && rs[1] == Rule(ClickSlot, MicroflowTarget);
    assert rs[2] == Rule(DropEvent, MicroflowTarget) && rs[3] == Rule(ClickEvent, NanoflowTarget);
    assert rs[4] == Rule(DropEvent, NanoflowTarget) && rs[5] == Rule(ClickSlot, NanoflowTarget);
    assert Violated(p, rs[0]) <==> p.onClickEvent == CallMicroflow && p.eventMicroflow == "";
    assert Violated(p, rs[1]) <==> p.onClickSlotEvent == CallMicroflow && p.slotMicroflow == "";
    assert Violated(p, rs[2]) <==> p.onDropEvent == CallMicroflow && p.onDropMicroflow == "";
    assert Violated(p, rs[3]) <==> p.onClickEvent == CallNanoflow && p.eventNanoflow.body.None?;
    assert Violated(p, rs[4]) <==> p.onDropEvent == CallNanoflow && p.onDropNanoflow.body.None?;
    assert Violated(p, rs[5]) <==> p.onClickSlotEvent == CallNanoflow && p.slotNanoflow.body.None?;
    var i := FirstViolatedIndex(p, rs);
    if Violated(p, rs[0]) {
      assert i == 0;
    } else if Violated(p, rs[1]) {
      assert i == 1;
    } else if Violated(p, rs[2]) {
      assert i == 2;
    } else if Violated(p, rs[3]) {
      assert i == 3;
    } else if Violated(p, rs[4]) {
      assert i == 4;
    } else if Violated(p, rs[5]) {
      assert i == 5;
    } else {
      assert i == 6;
    }
  }

  /** Every gesture's rules are among those checked. */
  lemma RuleOrderComplete(g: Gesture, t: Target)
    ensures Rule(g, t) in RuleOrder
  {
    match (g, t)
    case (ClickEvent, MicroflowTarget) => assert RuleOrder[0] == Rule(g, t);
    case (ClickSlot, MicroflowTarget) => assert RuleOrder[1] == Rule(g, t);
    case (DropEvent, MicroflowTarget) => assert RuleOrder[2] == Rule(g, t);
    case (ClickEvent, NanoflowTarget) => assert RuleOrder[3] == Rule(g, t);
    case (DropEvent, NanoflowTarget) => assert RuleOrder[4] == Rule(g, t);
    case (ClickSlot, NanoflowTarget) => assert RuleOrder[5] == Rule(g, t);
  }

  /** The configuration passes exactly when no gesture misses its target and the first day is at most 6. */
  lemma ValidatePropsEmptyIff(p: CalendarProps)
    ensures ValidateProps(p) == "" <==> p.firstDayOfTheWeek <= 6 && forall g :: !MissingTarget(p, g)
  {
    var i := FirstViolatedIndex(p, RuleOrder);
    if p.firstDayOfTheWeek <= 6 {
      ValidatePropsFirstViolated(p);
      if i < |RuleOrder| {
        assert |Banner + Message(RuleOrder[i])| > 0;
        assert MissingTarget(p, RuleOrder[i].gesture);
      } else {
        forall g
          ensures !MissingTarget(p, g)
        {
          RuleOrderComplete(g, MicroflowTarget);
          RuleOrderComplete(g, NanoflowTarget);
        }
      }
    } else {
      assert |InvalidFirstDay| > 0;
    }
  }

  /** A gesture misconfiguration is reported behind the banner, unless the first day overrides it. */
  lemma ValidatePropsReportsMissing(p: CalendarProps, g: Gesture)
    requires MissingTarget(p, g) && p.firstDayOfTheWeek <= 6
    ensures exists r :: r in RuleOrder && Violated(p, r) && ValidateProps(p) == Banner + Message(r)
  {
    var t := if KindOf(p, g) == CallMicroflow then MicroflowTarget else NanoflowTarget;
    RuleOrderComplete(g, t);
    ValidatePropsFirstViolated(p);
    var i := FirstViolatedIndex(p, RuleOrder);
    assert Violated(p, Rule(g, t));
    assert i < |RuleOrder|;
    assert RuleOrder[i] in RuleOrder;
  }

  // ---------------------------------------------------------------------------
  // The XPath of fetchEventsByXPath
  // ---------------------------------------------------------------------------

  /** The token of the constraint that stands for the context object. */
  const CurrentObjectToken := "[%CurrentObject%]"

  /**
    `s.replace(/pat/g, rep)` for a pattern without regular-expression syntax:
    the occurrences of `pat` found scanning left to right, without overlap,
    are each replaced by `rep`.
   */
  function ReplaceAll(s: string, pat: string, rep: string): string
    requires pat != []
    decreases |s|
  {
    if |s| < |pat| then s
    else if s[..|pat|] == pat then rep + ReplaceAll(s[|pat|..], pat, rep)
    else [s[0]] + ReplaceAll(s[1..], pat, rep)
  }

  /** The pieces joined together, `sep` between each two (`Array.prototype.join`). */
  function JoinWith(pieces: seq<string>, sep: string): string
    requires |pieces| >= 1
  {
    if |pieces| == 1 then pieces[0] else pieces[0] + sep + JoinWith(pieces[1..], sep)
  }

  /** An occurrence of `pat` starts at position `i` of `s`. */
  predicate OccursAt(s: string, pat: string, i: nat) {
    i + |pat| <= |s| && s[i..i + |pat|] == pat
  }

  /** `pat` occurs nowhere in `s`. */
  predicate Free(s: string, pat: string) {
    forall i: nat :: i <= |s| ==> !OccursAt(s, pat, i)
  }

  /** No character of `pat` after the first equals the first. */
  predicate NoSelfOverlap(pat: string) {
    pat != [] && pat[0] !in pat[1..]
  }

  /** A text missing one of the pattern's characters does not hold the pattern. */
  lemma FreeMissingChar(s: string, pat: string, j: nat)
    requires j < |pat| && pat[j] !in s
    ensures Free(s, pat)
  {
    forall i: nat | i <= |s|
      ensures !OccursAt(s, pat, i)
    {
      if i + |pat| <= |s| {
        assert s[i..i + |pat|][j] == s[i + j];
      }
    }
  }

  /**
    A text that does not hold the pattern's second character, and does not end
    in its first, adds no occurrence in front of a text free of the pattern.
   */
  lemma FreeConcat(x: string, y: string, pat: string)
    requires |pat| >= 2 && pat[1] !in x && (x == [] || x[|x| - 1] != pat[0])
    requires Free(y, pat)
    ensures Free(x + y, pat)
  {
    var s := x + y;
    forall i: nat | i <= |s|
      ensures !OccursAt(s, pat, i)
    {
      if i + |pat| <= |s| {
        if i + 1 < |x| {
          assert s[i..i + |pat|][1] == x[i + 1];
        } else if i + 1 == |x| {
          assert s[i..i + |pat|][0] == x[i];
        } else {
          assert s[i..i + |pat|] == y[i - |x|..i - |x| + |pat|];
          assert !OccursAt(y, pat, i - |x|);
        }
      }
    }
  }

  /**
    When no occurrence of the pattern starts inside `a`, the global replace
    copies `a` unchanged and goes on with `b`.
   */
  lemma {:induction false} ReplaceAllSkips(a: string, b: string, pat: string, rep: string)
    requires pat != []
    requires forall i: nat :: i < |a| ==> !OccursAt(a + b, pat, i)
    ensures ReplaceAll(a + b, pat, rep) == a + ReplaceAll(b, pat, rep)
    decreases |a|
  {
    if a != [] {
      var s := a + b;
      assert s[0] == a[0];
      if |s| < |pat| {
        assert |b| < |pat|;
        calc {
          ReplaceAll(a + b, pat, rep);
          a + b;
          { assert ReplaceAll(b, pat, rep) == b; }
          a + ReplaceAll(b, pat, rep);
        }
      } else {
        assert !OccursAt(s, pat, 0);
        assert s[1..] == a[1..] + b;
        forall i: nat | i < |a[1..]|
          ensures !OccursAt(a[1..] + b, pat, i)
        {
          assert !OccursAt(s, pat, i + 1);
          if i + |pat| <= |a[1..] + b| {
            assert (a[1..] + b)[i..i + |pat|] == s[i + 1..i + 1 + |pat|];
          }
        }
        ReplaceAllSkips(a[1..], b, pat, rep);
        assert a == [a[0]] + a[1..];
      }
    } else {
      assert a + b == b;
    }
  }

  /**
    No occurrence of a pattern without self-overlap starts inside a piece free
    of it, whatever follows the piece as long as the pattern itself does.
   */
  lemma PieceStartsNoOccurrence(piece: string, pat: string, rest: string, i: nat)
    requires NoSelfOverlap(pat) && Free(piece, pat) && i < |piece|
    requires rest == [] || (|rest| >= |pat| && rest[..|pat|] == pat)
    ensures !OccursAt(piece + rest, pat, i)
  {
    var s := piece + rest;
    if i + |pat| <= |piece| {
      assert piece[i..i + |pat|] == s[i..i + |pat|];
      assert !OccursAt(piece, pat, i);
    } else if i + |pat| <= |s| {
      var j := |piece| - i;
      assert 1 <= j < |pat|;
      assert s[|piece|] == rest[0] == rest[..|pat|][0] == pat[0];
      assert pat[j] == pat[1..][j - 1] != pat[0];
      assert s[i..i + |pat|][j] == s[|piece|];
    }
  }

  /**
    Every occurrence of a pattern without self-overlap, between pieces that do
    not hold it, is replaced, and the pieces are kept.
   */
  lemma {:induction false} ReplaceAllJoin(pieces: seq<string>, pat: string, rep: string)
    requires NoSelfOverlap(pat) && |pieces| >= 1
    requires forall k :: 0 <= k < |pieces| ==> Free(pieces[k], pat)
    ensures ReplaceAll(JoinWith(pieces, pat), pat, rep) == JoinWith(pieces, rep)
    decreases |pieces|
  {
    if |pieces| == 1 {
      forall i: nat | i < |pieces[0]|
        ensures !OccursAt(pieces[0] + "", pat, i)
      {
        PieceStartsNoOccurrence(pieces[0], pat, "", i);
      }
      ReplaceAllSkips(pieces[0], "", pat, rep);
      assert pieces[0] + "" == pieces[0];
    } else {
      var tail := JoinWith(pieces[1..], pat);
      assert (pat + tail)[..|pat|] == pat;
      forall i: nat | i < |pieces[0]|
        ensures !OccursAt(pieces[0] + (pat + tail), pat, i)
      {
        PieceStartsNoOccurrence(pieces[0], pat, pat + tail, i);
      }
      ReplaceAllSkips(pieces[0], pat + tail, pat, rep);
      assert (pat + tail)[|pat|..] == tail;
      ReplaceAllJoin(pieces[1..], pat, rep);
      assert pieces[0] + pat + tail == pieces[0] + (pat + tail);
      assert pieces[0] + (rep + ReplaceAll(tail, pat, rep)) == pieces[0] + rep + JoinWith(pieces[1..], rep);
    }
  }

  /** The XPath that retrieves the events: the entity, then its constraint with the context GUID substituted. */
  function EventsXPath(p: CalendarProps, contextGuid: string): string {
    var constraint := if p.entityConstraint != "" then ReplaceAll(p.entityConstraint, CurrentObjectToken, contextGuid) else "";
    "//" + p.eventEntity + constraint
  }

  /** Without a constraint the XPath is the entity alone. */
  lemma EventsXPathNoConstraint(p: CalendarProps, contextGuid: string)
    requires p.entityConstraint == ""
    ensures EventsXPath(p, contextGuid) == "//" + p.eventEntity
  {
    assert "//" + p.eventEntity + "" == "//" + p.eventEntity;
  }

  /**
    A constraint made of pieces around occurrences of the token, no piece
    holding the token itself, becomes the same pieces around the context GUID.
    The pieces may hold anything else, other system tokens such as
    `[%CurrentUser%]` included.
   */
  lemma EventsXPathSubstitutes(p: CalendarProps, contextGuid: string, pieces: seq<string>)
    requires |pieces| >= 1 && p.entityConstraint == JoinWith(pieces, CurrentObjectToken)
    requires forall k :: 0 <= k < |pieces| ==> Free(pieces[k], CurrentObjectToken)
    ensures EventsXPath(p, contextGuid) == "//" + p.eventEntity + JoinWith(pieces, contextGuid)
  {
    assert CurrentObjectToken[0] !in CurrentObjectToken[1..];
    ReplaceAllJoin(pieces, CurrentObjectToken, contextGuid);
  }

  /** A constraint with one occurrence of the token, neither side holding it, gets the GUID in its place. */
  lemma EventsXPathAround(p: CalendarProps, contextGuid: string, before: string, after: string)
    requires p.entityConstraint == before + CurrentObjectToken + after
    requires Free(before, CurrentObjectToken) && Free(after, CurrentObjectToken)
    ensures EventsXPath(p, contextGuid) == "//" + p.eventEntity + before + contextGuid + after
  {
    var pieces := [before, after];
    assert JoinWith(pieces, CurrentObjectToken) == before + CurrentObjectToken + after;
    EventsXPathSubstitutes(p, contextGuid, pieces);
    assert JoinWith(pieces, contextGuid) == before + contextGuid + after;
  }

  /** The usual constraint, on the owner of the event, gets the context GUID in place of the token. */
  lemma EventsXPathOwnerConstraint(p: CalendarProps, contextGuid: string)
    requires p.entityConstraint == "[Cal.Event_Owner = '[%CurrentObject%]']"
    ensures EventsXPath(p, contextGuid) == "//" + p.eventEntity + "[Cal.Event_Owner = '" + contextGuid + "']"
  {
    assert p.entityConstraint == "[Cal.Event_Owner = '" + CurrentObjectToken + "']";
    FreeMissingChar("[Cal.Event_Owner = '", CurrentObjectToken, 1);
    FreeMissingChar("']", CurrentObjectToken, 1);
    EventsXPathAround(p, contextGuid, "[Cal.Event_Owner = '", "']");
  }

  /** The text after the context object's token in the two-token constraint below does not hold that token. */
  lemma CreatorPieceFree()
    ensures Free("'][Creator = '[%CurrentUser%]']", CurrentObjectToken)
  {
    var user := "[%CurrentUser%]']";
    forall i: nat | i <= |user|
      ensures !OccursAt(user, CurrentObjectToken, i)
    {
      if i == 0 {
        assert user[9] != CurrentObjectToken[9];
      }
    }
    FreeConcat("'][Creator = '", user, CurrentObjectToken);
    assert "'][Creator = '[%CurrentUser%]']" == "'][Creator = '" + user;
  }

  /** Another system token in the constraint is left alone; only the context object's token is replaced. */
  lemma EventsXPathOtherToken(p: CalendarProps, contextGuid: string)
    requires p.entityConstraint == "[Cal.Event_Owner = '" + CurrentObjectToken + "'][Creator = '[%CurrentUser%]']"
    ensures EventsXPath(p, contextGuid) ==
      "//" + p.eventEntity + "[Cal.Event_Owner = '" + contextGuid + "'][Creator = '[%CurrentUser%]']"
  {
    FreeMissingChar("[Cal.Event_Owner = '", CurrentObjectToken, 1);
    CreatorPieceFree();
    EventsXPathAround(p, contextGuid, "[Cal.Event_Owner = '", "'][Creator = '[%CurrentUser%]']");
  }

  /**
    `fetchData`: retrieve the events by XPath when that is the data source,
    an event entity is set and there is an object; or run the data-source
    microflow on the object when that is the data source and one is selected.
   */
  function FetchRequest(p: CalendarProps, mxObject: Option<MxObject>): (r: Option<Request>)
    ensures r.Some? <==> (mxObject.Some? &&
      ((p.dataSource == XPath && p.eventEntity != "") || (p.dataSource == Microflow && p.dataSourceMicroflow != "")))
    ensures r.Some? && p.dataSource == XPath ==> r.value == RetrieveByXPath(EventsXPath(p, mxObject.value.guid))
    ensures r.Some? && p.dataSource == Microflow ==> r.value == RunMicroflow(p.dataSourceMicroflow, Selection([mxObject.value.guid]))
  {
    if p.dataSource == XPath && p.eventEntity != "" && mxObject.Some? then
      Some(RetrieveByXPath(EventsXPath(p, mxObject.value.guid)))
    else if p.dataSource == Microflow && p.dataSourceMicroflow != "" then
      // fetchEventsByMicroflow checks the object again
      if mxObject.Some? then Some(RunMicroflow(p.dataSourceMicroflow, Selection([mxObject.value.guid]))) else None
    else None
  }

  // ---------------------------------------------------------------------------
  // The view: isReadOnly and render
  // ---------------------------------------------------------------------------

  /** `isReadOnly`: no object, or editing switched off. */
  function IsReadOnly(p: CalendarProps): bool {
    p.mxObject.None? || p.editable == Never
  }

  /** What `render` passes on, as far as the modelled logic decides it. */
  datatype CalendarView = CalendarView(
    alertMessage: string,
    firstDay: int,
    selectable: bool,
    acceptsGestures: bool,
    style: Option<map<string, string>>)

  /**
    `render`, from the properties and the state it reads. The alert message in
    the state is never set to anything but "", so the configuration check
    always decides the alert.
   */
  function Render(p: CalendarProps, loading: bool, firstDayAttribute: int): (v: CalendarView)
    ensures v.acceptsGestures <==> p.mxObject.Some? && p.editable == Default
    ensures v.selectable <==> v.acceptsGestures && p.selectable
    ensures v.alertMessage == ValidateProps(p)
    ensures v.alertMessage == "" <==> p.firstDayOfTheWeek <= 6 && forall g :: !MissingTarget(p, g)
    ensures firstDayAttribute != 0 ==> v.firstDay == firstDayAttribute
    ensures firstDayAttribute == 0 ==> v.firstDay == p.firstDayOfTheWeek
    ensures v.style.Some? <==> loading
    ensures loading ==> v.style.value == StyleParser.ParseStyle(p.style)
  {
    ValidatePropsEmptyIff(p);
    var readOnly := IsReadOnly(p);
    CalendarView(
      ValidateProps(p),
      if firstDayAttribute != 0 then firstDayAttribute else p.firstDayOfTheWeek,
      if !readOnly then p.selectable else false,
      !readOnly,
      if loading then Some(StyleParser.ParseStyle(p.style)) else None)
  }

  // ---------------------------------------------------------------------------
  // Gesture dispatch
  // ---------------------------------------------------------------------------

  /** The gesture calls a microflow or nanoflow, and one is selected. */
  predicate Configured(p: CalendarProps, g: Gesture) {
    || (KindOf(p, g) == CallMicroflow && MicroflowOf(p, g) != "")
    || (KindOf(p, g) == CallNanoflow && NanoflowOf(p, g).body.Some?)
  }

  /** The call a configured gesture makes on an object. */
  function GestureCall(p: CalendarProps, g: Gesture, obj: MxObject): Request {
    if KindOf(p, g) == CallMicroflow then RunMicroflow(MicroflowOf(p, g), ContextOf(obj))
    else RunNanoflow(NanoflowOf(p, g), ContextOf(obj))
  }

  /** `excecuteEventAction`: nothing for a missing or unsaved object, else the configured call. */
  function EventAction(p: CalendarProps, obj: Option<MxObject>): (r: Option<Request>)
    ensures r.Some? <==> obj.Some? && obj.value.guid != "" && Configured(p, ClickEvent)
    ensures r.Some? ==> r.value == GestureCall(p, ClickEvent, obj.value)
  {
    if obj.None? || obj.value.guid == "" then None
    else if p.onClickEvent == CallMicroflow && p.eventMicroflow != "" then
      Some(RunMicroflow(p.eventMicroflow, ContextOf(obj.value)))
    else if p.onClickEvent == CallNanoflow && p.eventNanoflow.body.Some? then
      Some(RunNanoflow(p.eventNanoflow, ContextOf(obj.value)))
    else None
  }

  /**
    `excecuteSlotAction` on the newly created event: the microflow needs a
    saved object (a GUID), the nanoflow does not.
   */
  function SlotAction(p: CalendarProps, obj: MxObject): (r: Option<Request>)
    ensures r.Some? <==> Configured(p, ClickSlot) && (p.onClickSlotEvent == CallMicroflow ==> obj.guid != "")
    ensures r.Some? ==> r.value == GestureCall(p, ClickSlot, obj)
  {
    if p.onClickSlotEvent == CallMicroflow && p.slotMicroflow != "" && obj.guid != "" then
      Some(RunMicroflow(p.slotMicroflow, ContextOf(obj)))
    else if p.onClickSlotEvent == CallNanoflow && p.slotNanoflow.body.Some? then
      Some(RunNanoflow(p.slotNanoflow, ContextOf(obj)))
    else None
  }

  /** `excecuteonDropAction`: nothing for a missing or unsaved object, else the configured call. */
  function DropAction(p: CalendarProps, obj: Option<MxObject>): (r: Option<Request>)
    ensures r.Some? <==> obj.Some? && obj.value.guid != "" && Configured(p, DropEvent)
    ensures r.Some? ==> r.value == GestureCall(p, DropEvent, obj.value)
  {
    if obj.None? || obj.value.guid == "" then None
    else if p.onDropEvent == CallMicroflow && p.onDropMicroflow != "" && obj.value.guid != "" then
      Some(RunMicroflow(p.onDropMicroflow, ContextOf(obj.value)))
    else if p.onDropEvent == CallNanoflow && p.onDropNanoflow.body.Some? then
      Some(RunNanoflow(p.onDropNanoflow, ContextOf(obj.value)))
    else None
  }

  /**
    Dispatch agrees with the configuration check: on a configuration that
    passes it and a saved object, a gesture makes a call exactly when it is not
    set to "do nothing".
   */
  lemma DispatchMatchesValidation(p: CalendarProps, obj: MxObject)
    requires ValidateProps(p) == "" && obj.guid != ""
    ensures EventAction(p, Some(obj)).Some? <==> p.onClickEvent != DoNothing
    ensures SlotAction(p, obj).Some? <==> p.onClickSlotEvent != DoNothing
    ensures DropAction(p, Some(obj)).Some? <==> p.onDropEvent != DoNothing
  {
    ValidatePropsEmptyIff(p);
    assert !MissingTarget(p, ClickEvent) && !MissingTarget(p, ClickSlot) && !MissingTarget(p, DropEvent);
  }

  // ---------------------------------------------------------------------------
  // The optimistic drop update
  // ---------------------------------------------------------------------------

  /**
    One event as the calendar shows it: a JavaScript object, so two events
    are the same only when they are the same object, whatever their fields
    hold. Start and end are opaque time values.
   */
  class CalendarEvent {
    const title: string
    const allDay: bool
    const start: Timestamp
    const end: Timestamp
    const guid: string
    const color: string

    /** The event `onDropEvent` builds: a new object with the dropped event's fields and the new times. */
    constructor Moved(info: DropInfo)
      ensures MovedFrom(this, info)
    {
      title := info.event.title;
      allDay := info.event.allDay;
      start := info.start;
      end := info.end;
      guid := info.event.guid;
      color := info.event.color;
    }
  }

  /** What the calendar reports for a drop: the event object dragged and its new times. */
  datatype DropInfo = DropInfo(event: CalendarEvent, start: Timestamp, end: Timestamp)

  /** `e` is the dropped event at its new time: every other field kept. */
  predicate MovedFrom(e: CalendarEvent, info: DropInfo) {
    && e.title == info.event.title && e.allDay == info.event.allDay
    && e.guid == info.event.guid && e.color == info.event.color
    && e.start == info.start && e.end == info.end
  }

  /**
    The position of the first occurrence of the object `x` in `events`,
    compared by identity as `indexOf` compares objects, or -1 when the object
    is not listed.
   */
  function IndexOf(events: seq<CalendarEvent>, x: CalendarEvent): (i: int)
    ensures -1 <= i < |events|
    ensures i >= 0 ==> events[i] == x && forall j :: 0 <= j < i ==> events[j] != x
    ensures i == -1 <==> x !in events
  {
    if events == [] then -1
    else if events[0] == x then 0
    else
      var k := IndexOf(events[1..], x);
      if k == -1 then -1 else k + 1
  }

  /**
    Where `splice(start, …)` works on a list of length `len`: a negative
    start counts from the end (and stops at 0), a start past the end is the
    end.
   */
  function SplicePosition(len: nat, start: int): (k: nat)
    ensures k <= len
  {
    if start < 0 then (if len + start < 0 then 0 else len + start) else (if start < len then start else len)
  }

  /**
    `a.splice(start, 1, item)` on a copy of `a`: one element is removed at the
    splice position, if there is one, and `item` put in its place.
   */
  function Splice(a: seq<CalendarEvent>, start: int, item: CalendarEvent): (r: seq<CalendarEvent>)
    ensures SplicePosition(|a|, start) < |r| && r[SplicePosition(|a|, start)] == item
  {
    var actual := SplicePosition(|a|, start);
    var deleted := if actual < |a| then 1 else 0;
    a[..actual] + [item] + a[actual + deleted..]
  }

  /** The event list `onDropEvent` puts in the state: `moved` spliced in where `dropped` is found. */
  function DropUpdate(events: seq<CalendarEvent>, dropped: CalendarEvent, moved: CalendarEvent): seq<CalendarEvent> {
    Splice(events, IndexOf(events, dropped), moved)
  }

  /** A listed event object is replaced where it first appears; nothing else changes. */
  lemma DropUpdateFound(events: seq<CalendarEvent>, dropped: CalendarEvent, moved: CalendarEvent)
    requires dropped in events
    ensures var i := IndexOf(events, dropped);
      DropUpdate(events, dropped, moved) == events[i := moved]
  {
    var i := IndexOf(events, dropped);
    SpliceAt(events, i, moved);
  }

  /**
    An event object that is not listed replaces the last event, since
    splice(-1, …) counts from the end. This is the case of an event handed
    out before the list was fetched again: the new list holds other objects,
    even where their fields are equal.
   */
  lemma DropUpdateNotFound(events: seq<CalendarEvent>, dropped: CalendarEvent, moved: CalendarEvent)
    requires dropped !in events && events != []
    ensures DropUpdate(events, dropped, moved) == events[|events| - 1 := moved]
  {
    SpliceAt(events, -1, moved);
  }

  /** Splicing one element at an index within the list, counted from the end when negative, is an update there. */
  lemma SpliceAt(a: seq<CalendarEvent>, start: int, item: CalendarEvent)
    requires -|a| <= start < |a|
    ensures var i := if start < 0 then |a| + start else start;
      Splice(a, start, item) == a[i := item]
  {
    var i := if start < 0 then |a| + start else start;
    assert Splice(a, start, item) == a[..i] + [item] + a[i + 1..];
  }

  /** On an empty list the dropped event becomes the only one. */
  lemma DropUpdateEmpty(dropped: CalendarEvent, moved: CalendarEvent)
    ensures DropUpdate([], dropped, moved) == [moved]
  {
  }

  /** The list keeps its length unless it was empty. */
  lemma DropUpdateLength(events: seq<CalendarEvent>, dropped: CalendarEvent, moved: CalendarEvent)
    ensures |DropUpdate(events, dropped, moved)| == if events == [] then 1 else |events|
  {
  }

  /** The attribute writes made on the retrieved object after a drop: title, colour, start, end. */
  function DropWrites(p: CalendarProps, info: DropInfo, obj: MxObject): (ws: seq<Request>)
    ensures |ws| == 4
    ensures forall i :: 0 <= i < 4 ==> ws[i].SetAttribute? && ws[i].guid == obj.guid
  {
    [ SetAttribute(obj.guid, p.titleAttribute, Text(info.event.title)),
      SetAttribute(obj.guid, p.eventColor, Text(info.event.color)),
      SetAttribute(obj.guid, p.startAttribute, Time(info.start)),
      SetAttribute(obj.guid, p.endAttribute, Time(info.end)) ]
  }

  /**
    The attribute writes made on the event created for a slot. The colour
    attribute receives the TITLE attribute's value, as the code reads.
   */
  function SlotWrites(p: CalendarProps, obj: MxObject, start: Timestamp, end: Timestamp): (ws: seq<Request>)
    ensures |ws| == 4
    ensures forall i :: 0 <= i < 4 ==> ws[i].SetAttribute? && ws[i].guid == obj.guid
  {
    [ SetAttribute(obj.guid, p.titleAttribute, Text(Get(obj, p.titleAttribute))),
      SetAttribute(obj.guid, p.eventColor, Text(Get(obj, p.titleAttribute))),
      SetAttribute(obj.guid, p.startAttribute, Time(start)),
      SetAttribute(obj.guid, p.endAttribute, Time(end)) ]
  }

  // ---------------------------------------------------------------------------
  // Subscriptions
  // ---------------------------------------------------------------------------

  /**
    The channels `resetSubscriptions` subscribes to for an object: its event
    entity, the object itself, its four event attributes, then the start
    position and first-day attributes.
   */
  function SubscriptionChannels(p: CalendarProps, mxObject: Option<MxObject>): (cs: seq<Channel>)
    ensures |cs| == if mxObject.Some? then 8 else 0
  {
    match mxObject
    case None => []
    case Some(obj) =>
      var g := obj.guid;
      [ Channel(Some(p.eventEntity), None, None, FetchData(g)),
        Channel(None, Some(g), None, FetchData(g)),
        Channel(None, Some(g), Some(p.titleAttribute), FetchData(g)),
        Channel(None, Some(g), Some(p.startAttribute), FetchData(g)),
        Channel(None, Some(g), Some(p.endAttribute), FetchData(g)),
        Channel(None, Some(g), Some(p.eventColor), FetchData(g)),
        Channel(None, Some(g), Some(p.startPositionAttribute), SetStartPosition(g)),
        Channel(None, Some(g), Some(p.firstDayAttribute), SetFirstDay(g)) ]
  }

  /** Every subscription but the entity one listens on the object, and every handler works on it. */
  lemma SubscriptionsConcernObject(p: CalendarProps, obj: MxObject)
    ensures var cs := SubscriptionChannels(p, Some(obj));
      && (forall i :: 1 <= i < |cs| ==> cs[i].guid == Some(obj.guid))
      && (forall i :: 0 <= i < |cs| ==> cs[i].callback.FetchData? || cs[i].callback.SetStartPosition? || cs[i].callback.SetFirstDay?)
      && (forall i :: 0 <= i < |cs| ==> cs[i].callback.target == obj.guid)
  {
  }

  // ---------------------------------------------------------------------------
  // The container
  // ---------------------------------------------------------------------------

  /** The first day `setFirstDay` leaves: the object's attribute, or `current` without an object. */
  function FirstDayFrom(p: CalendarProps, mxObject: Option<MxObject>, current: int): int {
    if mxObject.Some? then GetNumber(mxObject.value, p.firstDayAttribute) else current
  }

  /** The start position `setStartPosition` leaves: the object's attribute when one is set up, else `now`. */
  function StartPositionFrom(p: CalendarProps, mxObject: Option<MxObject>, now: Timestamp): Timestamp {
    if p.startPositionAttribute != "" && mxObject.Some? then GetNumber(mxObject.value, p.startPositionAttribute) else now
  }

  /** The calendar container: its properties, the state it renders from and its subscription handles. */
  class CalendarContainer {
    var props: CalendarProps
    var events: seq<CalendarEvent>
    var loading: bool
    var startPosition: Timestamp
    var firstDayAttribute: int
    var subscriptionHandles: seq<Handle>
    const host: HostBus

    /** The host's bus is in order, and every handle held was given out by it. */
    ghost predicate Valid()
      reads this, host
    {
      host.Valid() && forall i :: 0 <= i < |subscriptionHandles| ==> subscriptionHandles[i] < host.next
    }

    /** The initial state: no events, loading, first-day attribute 0, no handles. */
    constructor (props: CalendarProps, host: HostBus, now: Timestamp)
      requires host.Valid()
      ensures Valid()
      ensures this.props == props && this.host == host
      ensures events == [] && loading && startPosition == now && firstDayAttribute == 0
      ensures subscriptionHandles == []
    {
      this.props := props;
      this.host := host;
      events := [];
      loading := true;
      startPosition := now;
      firstDayAttribute := 0;
      subscriptionHandles := [];
    }

    /** The view `render` produces from the current state. */
    function View(): CalendarView
      reads this
    {
      Render(props, loading, firstDayAttribute)
    }

    /**
      `resetSubscriptions`: the handles held are unsubscribed, the list is
      emptied, and for an object it is refilled with the handles of the eight
      new subscriptions.
     */
    method ResetSubscriptions(mxObject: Option<MxObject>)
      requires Valid()
      modifies this`subscriptionHandles, host
      ensures Valid()
      ensures host.live == (old(host.live) - Elements(old(subscriptionHandles))) + Registered(old(host.next), SubscriptionChannels(props, mxObject))
      ensures subscriptionHandles == FreshHandles(old(host.next), |SubscriptionChannels(props, mxObject)|)
      ensures host.next == old(host.next) + |SubscriptionChannels(props, mxObject)|
      ensures |subscriptionHandles| == if mxObject.Some? then 8 else 0
      ensures forall h :: h in old(subscriptionHandles) ==> h !in host.live
      ensures forall h :: h in subscriptionHandles ==> h in host.live
      ensures host.requests == old(host.requests)
    {
      host.UnsubscribeAll(subscriptionHandles);
      subscriptionHandles := [];
      var handles := host.SubscribeAll(SubscriptionChannels(props, mxObject));
      subscriptionHandles := handles;
    }

    /** `setFirstDay`: for an object, the first day of the week is read from its attribute. */
    method SetFirstDay(mxObject: Option<MxObject>)
      modifies this`firstDayAttribute
      ensures firstDayAttribute == FirstDayFrom(props, mxObject, old(firstDayAttribute))
      ensures mxObject.Some? && firstDayAttribute != 0 ==> View().firstDay == firstDayAttribute
      ensures mxObject.Some? && firstDayAttribute == 0 ==> View().firstDay == props.firstDayOfTheWeek
    {
      if mxObject.Some? {
        firstDayAttribute := GetNumber(mxObject.value, props.firstDayAttribute);
      }
    }

    /**
      `setStartPosition`: loading ends, and the start position is read from
      its attribute, or is the current time `now` when no attribute is set up
      or there is no object.
     */
    method SetStartPosition(mxObject: Option<MxObject>, now: Timestamp)
      modifies this`loading, this`startPosition
      ensures !loading && startPosition == StartPositionFrom(props, mxObject, now)
      ensures View().style.None?
    {
      loading := false;
      startPosition := StartPositionFrom(props, mxObject, now);
    }

    /**
      `componentDidMount`: for an object, fetch the events, then read the first
      day and the start position (which ends loading). The alert in the state
      is always "", so its test always passes.
     */
    method Mount(now: Timestamp)
      modifies this`firstDayAttribute, this`loading, this`startPosition, host`requests
      ensures props.mxObject.Some? ==>
        && host.requests == old(host.requests) + ToSeq(FetchRequest(props, props.mxObject))
        && firstDayAttribute == FirstDayFrom(props, props.mxObject, old(firstDayAttribute))
        && !loading && startPosition == StartPositionFrom(props, props.mxObject, now)
      ensures props.mxObject.None? ==>
        && host.requests == old(host.requests) && firstDayAttribute == old(firstDayAttribute)
        && loading == old(loading) && startPosition == old(startPosition)
    {
      if props.mxObject.Some? {
        FetchData(props.mxObject);
        SetFirstDay(props.mxObject);
        SetStartPosition(props.mxObject, now);
      }
    }

    /**
      `componentWillReceiveProps`: loading starts again; the events are
      fetched for the new object, the first day and the start position are
      read (which ends loading), the events are fetched a second time, and the
      subscriptions are renewed. All of it runs under the current properties,
      since React installs the new ones afterwards. The state updates are
      applied in order, which is the state React's batched updates leave.
     */
    method ReceiveProps(nextProps: CalendarProps, now: Timestamp)
      requires Valid()
      modifies this`props, this`loading, this`firstDayAttribute, this`startPosition, this`subscriptionHandles, host
      ensures Valid()
      ensures props == nextProps
      ensures var fetch := ToSeq(FetchRequest(old(props), nextProps.mxObject));
        host.requests == old(host.requests) + fetch + fetch
      ensures firstDayAttribute == FirstDayFrom(old(props), nextProps.mxObject, old(firstDayAttribute))
      ensures !loading && startPosition == StartPositionFrom(old(props), nextProps.mxObject, now)
      ensures var channels := SubscriptionChannels(old(props), nextProps.mxObject);
        && host.live == (old(host.live) - Elements(old(subscriptionHandles))) + Registered(old(host.next), channels)
        && subscriptionHandles == FreshHandles(old(host.next), |channels|)
        && host.next == old(host.next) + |channels|
    {
      if !loading {
        loading := true;
      }
      FetchData(nextProps.mxObject);
      SetFirstDay(nextProps.mxObject);
      SetStartPosition(nextProps.mxObject, now);
      FetchData(nextProps.mxObject);
      ResetSubscriptions(nextProps.mxObject);
      props := nextProps;
    }

    /** `fetchData`: at most one retrieval request. */
    method FetchData(mxObject: Option<MxObject>)
      modifies host`requests
      ensures host.requests == old(host.requests) + ToSeq(FetchRequest(props, mxObject))
    {
      host.SendAll(ToSeq(FetchRequest(props, mxObject)));
    }

    /** `onClickEvent`: retrieve the clicked event's object. */
    method OnClickEvent(guid: string)
      modifies host`requests
      ensures host.requests == old(host.requests) + [RetrieveByGuid(guid)]
    {
      host.Send(RetrieveByGuid(guid));
    }

    /** `excecuteEventAction`, on the object retrieved for a click; at most one call. */
    method ExecuteEventAction(obj: Option<MxObject>)
      modifies host`requests
      ensures host.requests == old(host.requests) + ToSeq(EventAction(props, obj))
      ensures |host.requests| <= |old(host.requests)| + 1
    {
      host.SendAll(ToSeq(EventAction(props, obj)));
    }

    /** `onClickSlot`: create an object of the event entity. */
    method OnClickSlot()
      modifies host`requests
      ensures host.requests == old(host.requests) + [CreateObject(props.eventEntity)]
    {
      host.Send(CreateObject(props.eventEntity));
    }

    /** The creation callback of `onClickSlot`: four attribute writes, then `excecuteSlotAction`. */
    method OnSlotCreated(obj: MxObject, start: Timestamp, end: Timestamp)
      modifies host`requests
      ensures host.requests == old(host.requests) + SlotWrites(props, obj, start, end) + ToSeq(SlotAction(props, obj))
    {
      host.SendAll(SlotWrites(props, obj, start, end));
      host.SendAll(ToSeq(SlotAction(props, obj)));
    }

    /**
      `onDropEvent`: the optimistic update of the event list, then a request
      for the dropped event's object.
     */
    method OnDropEvent(info: DropInfo)
      modifies this`events, host`requests
      ensures var k := SplicePosition(|old(events)|, IndexOf(old(events), info.event));
        && k < |events| && fresh(events[k]) && MovedFrom(events[k], info)
        && events == DropUpdate(old(events), info.event, events[k])
      ensures host.requests == old(host.requests) + [RetrieveByGuid(info.event.guid)]
    {
      var moved := new CalendarEvent.Moved(info);
      events := DropUpdate(events, info.event, moved);
      host.Send(RetrieveByGuid(info.event.guid));
    }

    /** The retrieval callback of `onDropEvent`: four attribute writes, then `excecuteonDropAction`. */
    method OnDropRetrieved(info: DropInfo, obj: MxObject)
      modifies host`requests
      ensures host.requests == old(host.requests) + DropWrites(props, info, obj) + ToSeq(DropAction(props, Some(obj)))
    {
      host.SendAll(DropWrites(props, info, obj));
      host.SendAll(ToSeq(DropAction(props, Some(obj))));
    }
  }

  /**
    Two resets in a row: none of the handles held before, nor any of the first
    reset's, is left live; only the second set is.
   */
  method ResubscribeTwice(c: CalendarContainer, first: Option<MxObject>, second: Option<MxObject>)
    requires c.Valid()
    modifies c`subscriptionHandles, c.host
    ensures c.Valid()
    ensures |c.subscriptionHandles| == if second.Some? then 8 else 0
    ensures forall h :: h in c.subscriptionHandles ==> h in c.host.live
    ensures forall h :: h in old(c.subscriptionHandles) ==> h !in c.host.live
    ensures forall h :: h in c.host.live && h >= old(c.host.next) ==> h in c.subscriptionHandles
  {
    ghost var before := c.subscriptionHandles;
    ghost var n0 := c.host.next;
    c.ResetSubscriptions(first);
    ghost var held := c.subscriptionHandles;
    ghost var live1 := c.host.live;
    ghost var n1 := c.host.next;
    c.ResetSubscriptions(second);
    forall h | h in before
      ensures h !in c.host.live
    {
      assert h < n0;
      assert h !in live1;
    }
  }
}

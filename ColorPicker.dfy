/**
  The colour picker widget's container: the configuration check, reading and
  checking the stored colour, rendering a picked colour in the configured
  format, when editing is allowed, the subscriptions it keeps on the context
  object and the host call made when a change completes.
 */
module ColorPicker {
  import opened Wrappers
  import opened Host
  import StyleParser
  import Decimal

  // ---------------------------------------------------------------------------
  // Properties
  // ---------------------------------------------------------------------------

  /** The `onChange` option: what completing a change does. */
  datatype OnChange = DoNothing | ShowPage | CallMicroflow | CallNanoflow

  datatype Editable = Default | Never

  /** The widget's properties, as far as the modelled logic reads them. A missing object is None. */
  datatype ColorPickerProps = ColorPickerProps(
    mxObject: Option<MxObject>,
    style: string,
    readOnly: bool,
    colorAttribute: string,
    editable: Editable,
    format: string,
    onChangeEvent: OnChange,
    onChangeMicroflow: string,
    onChangePage: string,
    onChangeNanoflow: Nanoflow,
    openPageLocation: string)

  // ---------------------------------------------------------------------------
  // validateProps
  // ---------------------------------------------------------------------------

  /** The nanoflow property serialises like an empty object: it has no field defined. */
  predicate IsEmptyObject(n: Nanoflow) {
    n.body.None? && n.paramsSpec.None?
  }

  /** The change option needs a target and none is selected. */
  predicate Misconfigured(p: ColorPickerProps) {
    match p.onChangeEvent
    case DoNothing => false
    case CallMicroflow => p.onChangeMicroflow == ""
    case ShowPage => p.onChangePage == ""
    case CallNanoflow => IsEmptyObject(p.onChangeNanoflow)
  }

  // The messages of validateProps, word for word.
  const MicroflowMissing := "on change event is set to 'Call a microflow' but no microflow is selected"
  const PageMissing := "on change event is set to 'Show a page' but no page is selected"
  const NanoflowMissing := "on change event is set to 'Call a nanoflow' but no nanoflow is selected"

  /** The message for an option whose target is missing. */
  function Message(k: OnChange): (m: string)
    requires k != DoNothing
    ensures |m| > 0
  {
    match k
    case CallMicroflow => MicroflowMissing
    case ShowPage => PageMissing
    case CallNanoflow => NanoflowMissing
  }

  const Banner := "Error in color picker configuration: "

  /**
    `ColorPickerContainer.validateProps`: "" for a sound configuration, else
    the banner and the message of the option whose target is missing.
   */
  function ValidateProps(p: ColorPickerProps): (msg: string)
    ensures msg == "" <==> !Misconfigured(p)
    ensures Misconfigured(p) ==> msg == Banner + Message(p.onChangeEvent)
  {
    var errorMessage :=
      if p.onChangeEvent == CallMicroflow && p.onChangeMicroflow == "" then
        MicroflowMissing
      else if p.onChangeEvent == ShowPage && p.onChangePage == "" then
        PageMissing
      else if p.onChangeEvent == CallNanoflow && IsEmptyObject(p.onChangeNanoflow) then
        NanoflowMissing
      else "";
    if errorMessage == "" then errorMessage else Banner + errorMessage
  }

  // ---------------------------------------------------------------------------
  // Reading and checking the stored colour
  // ---------------------------------------------------------------------------

  /** `getValue`: the colour attribute of the object, or "" without one. */
  function GetValue(p: ColorPickerProps, mxObject: Option<MxObject>): (v: string)
    ensures mxObject.None? ==> v == ""
    ensures mxObject.Some? ==> v == Get(mxObject.value, p.colorAttribute)
  {
    match mxObject
    case None => ""
    case Some(obj) => Get(obj, p.colorAttribute)
  }

  /** A state update: the new colour, and the new alert or None where the alert is left as it was. */
  datatype ColorState = ColorState(color: string, alertMessage: Option<string>)

  const InvalidFormat := "Color value should be of format 'rgb', 'rgba' or 'hex'"

  /**
    `validateColor` as written: a non-empty value without "#" is refused
    (colour "" and the format alert); anything else is kept, the alert
    untouched.
   */
  function ValidateColorAsWritten(p: ColorPickerProps, mxObject: Option<MxObject>): (s: ColorState)
    ensures var v := GetValue(p, mxObject);
      && (s.alertMessage.Some? <==> v != "" && '#' !in v)
      && (s.alertMessage.Some? ==> s == ColorState("", Some(InvalidFormat)))
      && (s.alertMessage.None? ==> s.color == v)
  {
    var color := GetValue(p, mxObject);
    if color != "" && '#' !in color then ColorState("", Some(InvalidFormat)) else ColorState(color, None)
  }

  /** The value starts with "rgb", as both `rgb(...)` and `rgba(...)` do. */
  predicate StartsWithRgb(v: string) {
    |v| >= 3 && v[..3] == "rgb"
  }

  /**
    `validateColor` as its alert describes it: a value is accepted when it is
    a hexadecimal colour (holds "#") or an `rgb`/`rgba` one.
   */
  function ValidateColor(p: ColorPickerProps, mxObject: Option<MxObject>): (s: ColorState)
    ensures var v := GetValue(p, mxObject);
      && (s.alertMessage.Some? <==> v != "" && '#' !in v && !StartsWithRgb(v))
      && (s.alertMessage.Some? ==> s == ColorState("", Some(InvalidFormat)))
      && (s.alertMessage.None? ==> s.color == v)
  {
    var color := GetValue(p, mxObject);
    if color != "" && '#' !in color && !StartsWithRgb(color) then ColorState("", Some(InvalidFormat))
    else ColorState(color, None)
  }

  /** The two readings differ only on values that start with "rgb". */
  lemma ValidateColorAgrees(p: ColorPickerProps, mxObject: Option<MxObject>)
    requires !StartsWithRgb(GetValue(p, mxObject))
    ensures ValidateColor(p, mxObject) == ValidateColorAsWritten(p, mxObject)
  {
  }

  // ---------------------------------------------------------------------------
  // updateColorValue: rendering a picked colour
  // ---------------------------------------------------------------------------

  /**
    The colour react-color reports: its hexadecimal form and its channels.
    The alpha channel is a JavaScript number, kept here as the text
    JavaScript renders it as.
   */
  datatype ColorResult = ColorResult(hex: string, r: nat, g: nat, b: nat, a: string)

  /** The channels, comma-separated, in decimal. */
  function Channels(c: ColorResult): string {
    Decimal.NatToString(c.r) + "," + Decimal.NatToString(c.g) + "," + Decimal.NatToString(c.b)
  }

  /** The value `updateColorValue` stores: `hex` for "hex", `rgb(r,g,b)` for "rgb", `rgba(r,g,b,a)` for anything else. */
  function RenderColor(format: string, c: ColorResult): string {
    if format == "hex" then c.hex
    else if format == "rgb" then "rgb(" + Channels(c) + ")"
    else "rgba(" + Channels(c) + "," + c.a + ")"
  }

  /** Reading an `rgb(r,g,b)` value back into its channels. */
  function ParseRgb(v: string): Option<(nat, nat, nat)> {
    if |v| < 5 || v[..4] != "rgb(" || v[|v| - 1] != ')' then None
    else
      var parts := StyleParser.Split(v[4..|v| - 1], ',');
      if |parts| != 3 then None
      else
        match (Decimal.ParseNat(parts[0]), Decimal.ParseNat(parts[1]), Decimal.ParseNat(parts[2]))
        case (Some(r), Some(g), Some(b)) => Some((r, g, b))
        case _ => None
  }

  lemma NoCommaInNumber(n: nat)
    ensures ',' !in Decimal.NatToString(n)
  {
  }

  /** The channels split back into their three numbers. */
  lemma SplitChannels(c: ColorResult)
    ensures StyleParser.Split(Channels(c), ',') ==
      [Decimal.NatToString(c.r), Decimal.NatToString(c.g), Decimal.NatToString(c.b)]
  {
    var r, g, b := Decimal.NatToString(c.r), Decimal.NatToString(c.g), Decimal.NatToString(c.b);
    NoCommaInNumber(c.r);
    NoCommaInNumber(c.g);
    NoCommaInNumber(c.b);
    assert Channels(c) == r + [','] + g + [','] + b;
    StyleParser.SplitThree(r, g, b, ',');
  }

  /** The "rgb" rendering reads back as the picked channels. */
  lemma RgbRoundTrip(c: ColorResult)
    ensures ParseRgb(RenderColor("rgb", c)) == Some((c.r, c.g, c.b))
  {
    var v := RenderColor("rgb", c);
    assert v == "rgb(" + Channels(c) + ")";
    assert v[..4] == "rgb(";
    assert v[4..|v| - 1] == Channels(c);
    SplitChannels(c);
    Decimal.ParseNatToString(c.r);
    Decimal.ParseNatToString(c.g);
    Decimal.ParseNatToString(c.b);
  }

  lemma NoHashInChannels(c: ColorResult)
    ensures '#' !in Channels(c)
  {
  }

  /**
    The check as written refuses the widget's own "rgb" rendering, which is
    non-empty and has no "#"; the stored colour is then shown as "" with the
    format alert.
   */
  lemma ValidateColorAsWrittenRefusesRgb(p: ColorPickerProps, obj: MxObject, c: ColorResult)
    requires Get(obj, p.colorAttribute) == RenderColor("rgb", c)
    ensures ValidateColorAsWritten(p, Some(obj)) == ColorState("", Some(InvalidFormat))
  {
    NoHashInChannels(c);
  }

  /** The corrected check accepts whatever the widget stores, for every format. */
  lemma ValidateColorAcceptsRendered(p: ColorPickerProps, obj: MxObject, format: string, c: ColorResult)
    requires '#' in c.hex
    requires Get(obj, p.colorAttribute) == RenderColor(format, c)
    ensures ValidateColor(p, Some(obj)) == ColorState(RenderColor(format, c), None)
  {
    var v := RenderColor(format, c);
    if format != "hex" {
      assert v[..3] == "rgb";
    }
  }

  /** The attribute write `updateColorValue` makes: only with a colour, an object and editing allowed. */
  function ColorWrite(p: ColorPickerProps, disabled: bool, color: Option<ColorResult>): (w: Option<Request>)
    ensures w.Some? <==> color.Some? && p.mxObject.Some? && !disabled
    ensures w.Some? ==> w.value == SetAttribute(p.mxObject.value.guid, p.colorAttribute, Text(RenderColor(p.format, color.value)))
  {
    if color.Some? && p.mxObject.Some? && !disabled then
      Some(SetAttribute(p.mxObject.value.guid, p.colorAttribute, Text(RenderColor(p.format, color.value))))
    else None
  }

  // ---------------------------------------------------------------------------
  // The disabled flag and handleOnChange
  // ---------------------------------------------------------------------------

  /**
    The `disabled` flag `render` computes: always when editing is not
    "default"; otherwise when there is no object, the widget is read-only, or
    the colour attribute is set and read-only on the object.
   */
  function Disabled(p: ColorPickerProps): bool {
    if p.editable == Default then
      || p.mxObject.None?
      || p.readOnly
      || (p.colorAttribute != "" && p.colorAttribute in p.mxObject.value.readOnlyAttributes)
    else true
  }

  /** Editing is allowed only on an object whose colour attribute is writable, with editing on. */
  lemma EnabledMeansWritable(p: ColorPickerProps)
    requires !Disabled(p)
    ensures p.editable == Default && !p.readOnly && p.mxObject.Some?
    ensures p.colorAttribute !in p.mxObject.value.readOnlyAttributes || p.colorAttribute == ""
  {
  }

  /** A write of a picked colour happens exactly when editing is allowed and there is a colour. */
  lemma ColorWriteWhenEnabled(p: ColorPickerProps, color: Option<ColorResult>)
    ensures ColorWrite(p, Disabled(p), color).Some? <==> color.Some? && !Disabled(p)
  {
  }

  /** The option's target is selected. */
  predicate Configured(p: ColorPickerProps) {
    match p.onChangeEvent
    case DoNothing => false
    case CallMicroflow => p.onChangeMicroflow != ""
    case ShowPage => p.onChangePage != ""
    case CallNanoflow => p.onChangeNanoflow.body.Some?
  }

  /**
    `handleOnChange`: nothing when there is no object or editing is not
    allowed; otherwise the configured call. The microflow runs on the object's
    GUID as a selection, the page and the nanoflow get the object's context.
   */
  function OnChangeAction(p: ColorPickerProps, disabled: bool): (r: Option<Request>)
    ensures r.Some? <==> p.mxObject.Some? && !disabled && Configured(p)
    ensures r.Some? && p.onChangeEvent == CallMicroflow ==> r.value == RunMicroflow(p.onChangeMicroflow, Selection([p.mxObject.value.guid]))
    ensures r.Some? && p.onChangeEvent == ShowPage ==> r.value == OpenPage(p.onChangePage, ContextOf(p.mxObject.value), p.openPageLocation)
    ensures r.Some? && p.onChangeEvent == CallNanoflow ==> r.value == RunNanoflow(p.onChangeNanoflow, ContextOf(p.mxObject.value))
  {
    if p.mxObject.Some? && !disabled then
      var obj := p.mxObject.value;
      if p.onChangeEvent == CallMicroflow && p.onChangeMicroflow != "" then
        Some(RunMicroflow(p.onChangeMicroflow, Selection([obj.guid])))
      else if p.onChangeEvent == ShowPage && p.onChangePage != "" then
        Some(OpenPage(p.onChangePage, ContextOf(obj), p.openPageLocation))
      else if p.onChangeEvent == CallNanoflow && p.onChangeNanoflow.body.Some? then
        Some(RunNanoflow(p.onChangeNanoflow, ContextOf(obj)))
      else None
    else None
  }

  /**
    On a configuration that passes the check, an enabled picker with an object
    calls its microflow or opens its page whenever one of those is chosen.
   */
  lemma DispatchMatchesValidation(p: ColorPickerProps)
    requires ValidateProps(p) == "" && p.mxObject.Some? && !Disabled(p)
    requires p.onChangeEvent == CallMicroflow || p.onChangeEvent == ShowPage
    ensures OnChangeAction(p, Disabled(p)).Some?
  {
  }

  /**
    The nanoflow checks disagree: a nanoflow property with only its parameter
    description passes the configuration check, yet `handleOnChange` makes no
    call for it.
   */
  lemma NanoflowChecksDisagree(p: ColorPickerProps, spec: string)
    requires p.onChangeEvent == CallNanoflow && p.onChangeNanoflow == Nanoflow(None, Some(spec))
    ensures ValidateProps(p) == ""
    ensures OnChangeAction(p, Disabled(p)).None?
  {
  }

  // ---------------------------------------------------------------------------
  // The container
  // ---------------------------------------------------------------------------

  /** What `render` hands to the presentational picker. */
  datatype ColorPickerView = ColorPickerView(
    alertMessage: string,
    color: string,
    disabled: bool,
    style: map<string, string>)

  /** The subscriptions for an object: its colour attribute, then the object itself. */
  function SubscriptionChannels(p: ColorPickerProps, mxObject: Option<MxObject>): (cs: seq<Channel>)
    ensures |cs| == if mxObject.Some? then 2 else 0
    ensures forall i :: 0 <= i < |cs| ==> cs[i].guid == Some(mxObject.value.guid) && cs[i].callback == HandleSubscriptions
  {
    match mxObject
    case None => []
    case Some(obj) =>
      [ Channel(None, Some(obj.guid), Some(p.colorAttribute), HandleSubscriptions),
        Channel(None, Some(obj.guid), None, HandleSubscriptions) ]
  }

  /** The colour picker container: its properties, state, disabled flag and subscription handles. */
  class ColorPickerContainer {
    var props: ColorPickerProps
    var color: string
    /** The alert in the state; "" when there is none. */
    var alertMessage: string
    var disabled: bool
    var subscriptionHandles: seq<Handle>
    const host: HostBus

    /** The host's bus is in order, and every handle held was given out by it. */
    ghost predicate Valid()
      reads this, host
    {
      host.Valid() && forall i :: 0 <= i < |subscriptionHandles| ==> subscriptionHandles[i] < host.next
    }

    /** The constructor: no handles, not disabled, and the state `validateColor` gives for the object. */
    constructor (props: ColorPickerProps, host: HostBus)
      requires host.Valid()
      ensures Valid()
      ensures this.props == props && this.host == host
      ensures subscriptionHandles == [] && !disabled
      ensures var s := ValidateColor(props, props.mxObject);
        color == s.color && alertMessage == s.alertMessage.GetOr("")
    {
      this.props := props;
      this.host := host;
      subscriptionHandles := [];
      disabled := false;
      var s := ValidateColor(props, props.mxObject);
      color := s.color;
      alertMessage := s.alertMessage.GetOr("");
    }

    /** `render`: sets the disabled flag and returns the view; the state's alert wins over the configuration check. */
    method Render() returns (v: ColorPickerView)
      modifies this`disabled
      ensures disabled == Disabled(props)
      ensures v.disabled == disabled && v.color == color
      ensures v.alertMessage == if alertMessage != "" then alertMessage else ValidateProps(props)
      ensures v.style == StyleParser.ParseStyle(props.style)
    {
      disabled := Disabled(props);
      var alert := if alertMessage != "" then alertMessage else ValidateProps(props);
      v := ColorPickerView(alert, color, disabled, StyleParser.ParseStyle(props.style));
    }

    /**
      `resetSubscriptions`: the handles held are unsubscribed, the list is
      emptied, and for an object it is refilled with the two new handles.
     */
    method ResetSubscriptions(mxObject: Option<MxObject>)
      requires Valid()
      modifies this`subscriptionHandles, host
      ensures Valid()
      ensures host.live == (old(host.live) - Elements(old(subscriptionHandles))) + Registered(old(host.next), SubscriptionChannels(props, mxObject))
      ensures subscriptionHandles == FreshHandles(old(host.next), |SubscriptionChannels(props, mxObject)|)
      ensures host.next == old(host.next) + |SubscriptionChannels(props, mxObject)|
      ensures |subscriptionHandles| == if mxObject.Some? then 2 else 0
      ensures forall h :: h in old(subscriptionHandles) ==> h !in host.live
      ensures forall h :: h in subscriptionHandles ==> h in host.live
      ensures host.requests == old(host.requests)
    {
      host.UnsubscribeAll(subscriptionHandles);
      subscriptionHandles := [];
      var handles := host.SubscribeAll(SubscriptionChannels(props, mxObject));
      subscriptionHandles := handles;
    }

    /**
      `componentWillReceiveProps`: resubscribe and recheck the colour for the
      new object, both still under the current properties (React installs the
      new ones afterwards), then take the new properties.
     */
    method ReceiveProps(newProps: ColorPickerProps)
      requires Valid()
      modifies this`subscriptionHandles, this`color, this`alertMessage, this`props, host
      ensures Valid()
      ensures var channels := SubscriptionChannels(old(props), newProps.mxObject);
        && host.live == (old(host.live) - Elements(old(subscriptionHandles))) + Registered(old(host.next), channels)
        && subscriptionHandles == FreshHandles(old(host.next), |channels|)
        && host.next == old(host.next) + |channels|
      ensures |subscriptionHandles| == if newProps.mxObject.Some? then 2 else 0
      ensures forall h :: h in old(subscriptionHandles) ==> h !in host.live
      ensures host.requests == old(host.requests)
      ensures var s := ValidateColor(old(props), newProps.mxObject);
        color == s.color && alertMessage == s.alertMessage.GetOr(old(alertMessage))
      ensures props == newProps
    {
      ResetSubscriptions(newProps.mxObject);
      var s := ValidateColor(props, newProps.mxObject);
      color := s.color;
      alertMessage := s.alertMessage.GetOr(alertMessage);
      props := newProps;
    }

    /** `componentWillUnmount`: every handle held is unsubscribed. */
    method Unmount()
      requires Valid()
      modifies host
      ensures Valid()
      ensures host.live == old(host.live) - Elements(subscriptionHandles)
      ensures forall h :: h in subscriptionHandles ==> h !in host.live
      ensures host.next == old(host.next) && host.requests == old(host.requests)
    {
      host.UnsubscribeAll(subscriptionHandles);
    }

    /**
      `handleSubscriptions`: re-read the colour from the component's own
      object; `now` is that object as it reads when the host notifies.
     */
    method HandleSubscriptions(now: Option<MxObject>)
      requires now.Some? <==> props.mxObject.Some?
      requires now.Some? ==> now.value.guid == props.mxObject.value.guid
      modifies this`color
      ensures color == GetValue(props, now)
    {
      color := GetValue(props, now);
    }

    /** `updateColorValue`: store the picked colour in the configured format and clear the alert, when allowed. */
    method UpdateColorValue(picked: Option<ColorResult>)
      modifies this`alertMessage, host`requests
      ensures host.requests == old(host.requests) + ToSeq(ColorWrite(props, disabled, picked))
      ensures alertMessage == if ColorWrite(props, disabled, picked).Some? then "" else old(alertMessage)
    {
      if picked.Some? && props.mxObject.Some? && !disabled {
        var value := RenderColor(props.format, picked.value);
        host.Send(SetAttribute(props.mxObject.value.guid, props.colorAttribute, Text(value)));
        alertMessage := "";
      }
    }

    /** `handleInputChange`: take the typed text; an empty one raises "Invalid color", any other clears the alert. */
    method HandleInputChange(newColor: string)
      modifies this`color, this`alertMessage
      ensures color == newColor
      ensures alertMessage == "" <==> |newColor| > 0
      ensures |newColor| == 0 ==> alertMessage == "Invalid color"
    {
      if |newColor| > 0 {
        alertMessage := "";
      } else {
        alertMessage := "Invalid color";
      }
      color := newColor;
    }

    /** `handleOnChange`: at most one host call. */
    method HandleOnChange()
      modifies host`requests
      ensures host.requests == old(host.requests) + ToSeq(OnChangeAction(props, disabled))
      ensures |host.requests| <= |old(host.requests)| + 1
    {
      host.SendAll(ToSeq(OnChangeAction(props, disabled)));
    }
  }
}

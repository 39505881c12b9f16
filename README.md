# Calendar and colour picker containers, with the object helpers

This project models the container components of two Mendix web widgets, and
it proves properties of each model.

- **The calendar container** works out several things:
  - whether its configuration is sound, checked gesture by gesture in a fixed
    order, with an invalid first day of the week overriding everything;
  - the XPath that retrieves its events, with `[%CurrentObject%]` replaced by
    the context object's GUID;
  - what it hands to the presentational calendar; a calendar without an
    object, or with editing set to "never", takes no gestures;
  - which host call each gesture makes: clicking an event, clicking a slot, or
    dropping an event;
  - how the event list changes after a drop; events are JavaScript objects,
    so the dropped event is looked up by identity, not by its fields;
  - which eight subscriptions it keeps on the context object;
  - what mounting and new properties do: fetch the events, read the first day
    and the start position, which ends loading, and renew the subscriptions.
- **The colour picker container** works out:
  - whether its configuration is sound;
  - whether the stored colour is accepted;
  - how a picked colour is stored: as `hex`, `rgb(r,g,b)` or `rgba(r,g,b,a)`;
  - when editing is disabled;
  - the host call made when a change completes;
  - the two subscriptions it keeps.
- **The inline-style parser** is used by both containers. It turns
  `"background-color: red; width: 10px"` into `{ backgroundColor: "red",
  width: "10px" }`. The model writes out the JavaScript string operations it
  relies on:
  - `split`, which always returns at least one piece;
  - ECMAScript `trim`;
  - the global `/(-.)/g` replace, which scans left to right without overlap.
  The parser is modelled once, because the two copies in the source are the
  same code.
- **The object helpers** are `exclude`, `only` and `pluckFromList`. A
  JavaScript object is modelled as its own properties in the order the
  language enumerates them. Array-index keys such as `"0"` or `"42"` come
  first, in ascending numeric order. The other keys follow in the order they
  were added. Each property is a key and a value; a missing value means
  `undefined`.

The host runtime (`window.mx`) is the class `Host.HostBus`. It holds these
parts:
- the live subscriptions, as a map from handle to channel;
- the next handle it will give out; handles are never reused;
- a log of the requests the widgets send: run a microflow or nanoflow, open a
  page, set an attribute, retrieve or create objects.

What the host does with a request is not modelled. The data object
(`mendix.lib.MxObject`) is modelled as a value seen at one moment. Each
container is a class. It holds the properties, the state the component
renders from, and the subscription handles.

Modules:
- `Wrappers`, with `Option`;
- `StyleParser`;
- `Decimal`, which writes out a number in decimal as template literals do, and
  reads it back;
- `Host`;
- `Calendar`;
- `ColorPicker`;
- `ObjectFilters`.

## Model

Paths are relative to the repository root.

| member | source | states |
|---|---|---|
| StyleParser.Split | packages-web/calendar/src/components/CalendarContainer.ts:415-416 | `split` yields one more piece than there are separators, and no piece contains the separator |
| StyleParser.JoinSplit | packages-web/calendar/src/components/CalendarContainer.ts:415 | joining the pieces with the separator gives the string back |
| StyleParser.SplitJoin | packages-web/calendar/src/components/CalendarContainer.ts:415 | separator-free pieces, joined and split again, come back unchanged |
| StyleParser.SplitConcat | packages-web/calendar/src/components/CalendarContainer.ts:415 | the pieces of `a;b` are the pieces of `a` followed by those of `b` |
| StyleParser.Trim | packages-web/calendar/src/components/CalendarContainer.ts:418-419 | the result is the part of the string after its leading white space; only white space follows it; it neither starts nor ends with white space |
| StyleParser.TrimIdempotent | packages-web/calendar/src/components/CalendarContainer.ts:418-419 | trimming twice is trimming once |
| StyleParser.TrimUntouched | packages-web/calendar/src/components/CalendarContainer.ts:418-419 | a string that neither starts nor ends with white space is its own trim |
| StyleParser.CamelCaseNoHyphen | packages-web/calendar/src/components/CalendarContainer.ts:418 | a name without hyphens is not changed |
| StyleParser.CamelCaseFirstHyphen | packages-web/calendar/src/components/CalendarContainer.ts:418 | the first hyphen and the character after it become that character in upper case; the text before is kept and the rest is rewritten in turn |
| StyleParser.PropertyNameOneHyphen | packages-web/calendar/src/components/CalendarContainer.ts:418 | a trimmed name with one hyphen, such as `background-color`, becomes `backgroundColor` |
| StyleParser.Declaration | packages-web/calendar/src/components/CalendarContainer.ts:416-420 | a segment gives a declaration exactly when it holds exactly one colon |
| StyleParser.ReduceLookup | packages-web/calendar/src/components/CalendarContainer.ts:415-423 | after the fold, a name that was not in the start object holds the value of its last declaration; `__proto__` is never a key |
| StyleParser.ParseStyleLookup | packages-web/calendar/src/components/CalendarContainer.ts:413-428 | a name is a key exactly when some segment declares it and it is not `__proto__`; its value is that of the last segment declaring it, so a later declaration wins |
| StyleParser.ParseStyleConcat | packages-web/calendar/src/components/CalendarContainer.ts:415-423 | the style of `a;b` is the style of `a` overridden by the style of `b` |
| StyleParser.ParseStyleSkipsMalformed | packages-web/calendar/src/components/CalendarContainer.ts:416-417 | a segment with no colon, or with two or more, changes nothing |
| StyleParser.ParseStyleOneDeclaration | packages-web/calendar/src/components/CalendarContainer.ts:415-420 | one `key:value` gives the one property: the camel-cased trimmed key, holding the trimmed value |
| StyleParser.ParseStyleNoColon | packages-web/color-picker/src/components/ColorPickerContainer.ts:95-102 | a style without a colon gives the empty object |
| StyleParser.ParseStyleEmpty | packages-web/color-picker/src/components/ColorPickerContainer.ts:93 | the default style `""` gives the empty object |
| Decimal.NatToString | packages-web/color-picker/src/components/ColorPickerContainer.ts:117 | a channel is written as a non-empty run of decimal digits with no leading zero |
| Decimal.ParseNatToString | packages-web/color-picker/src/components/ColorPickerContainer.ts:117 | reading the decimal text back gives the number |
| Decimal.NatToStringInjective | packages-web/color-picker/src/components/ColorPickerContainer.ts:117 | different numbers are written differently |
| Host.FreshHandles | packages-web/calendar/src/components/CalendarContainer.ts:183-209 | the handles for the subscriptions are distinct, increase in subscription order, and are exactly the ones from the first on, one per subscription |
| Host.FreshHandlesNotLive | packages-web/calendar/src/components/CalendarContainer.ts:183-209 | on a bus that has given out only smaller handles, none of the new handles was live before |
| Host.Registered | packages-web/color-picker/src/components/ColorPickerContainer.ts:139-147 | the subscriptions registered are keyed by exactly the handles from the first one on, one per channel |
| Host.RegisteredAt | packages-web/color-picker/src/components/ColorPickerContainer.ts:139-147 | the i-th handle given out listens on the i-th channel |
| Host.HostBus.Subscribe | packages-web/calendar/src/components/CalendarContainer.ts:183-186 | `subscribe` returns a handle that was not live and makes it live on the channel; nothing else changes |
| Host.HostBus.Unsubscribe | packages-web/calendar/src/components/CalendarContainer.ts:179 | `unsubscribe` makes the handle no longer live; nothing else changes |
| Host.HostBus.UnsubscribeAll | packages-web/calendar/src/components/CalendarContainer.ts:179 | after `forEach(unsubscribe)` none of the handles is live, and every other subscription is kept |
| Host.HostBus.SubscribeAll | packages-web/calendar/src/components/CalendarContainer.ts:183-209 | one subscription per channel, in order; the live map gains exactly those; the handles come back in order |
| Calendar.Message | packages-web/calendar/src/components/CalendarContainer.ts:382-392 | each configuration rule is reported with its own non-empty message |
| Calendar.FirstViolatedIndex | packages-web/calendar/src/components/CalendarContainer.ts:381-393 | the position of the first violated rule: every rule before it holds, and the rule there is violated |
| Calendar.ValidateProps | packages-web/calendar/src/components/CalendarContainer.ts:397-399 | a first day of the week above 6 gives "Invalid first day of the week value", whatever else is wrong |
| Calendar.ConfigurationErrorFirstViolated | packages-web/calendar/src/components/CalendarContainer.ts:381-393 | the if/else chain reports the message of the first violated rule, in rule order, or "" when no rule is violated |
| Calendar.ValidatePropsFirstViolated | packages-web/calendar/src/components/CalendarContainer.ts:378-405 | below the override, the result is the banner and the message of the first violated rule, or "" |
| Calendar.RuleOrderComplete | packages-web/calendar/src/components/CalendarContainer.ts:381-393 | the microflow rule and the nanoflow rule of every gesture are both checked |
| Calendar.ValidatePropsEmptyIff | packages-web/calendar/src/components/CalendarContainer.ts:378-405 | the result is "" exactly when the first day is at most 6 and no gesture misses its microflow or nanoflow |
| Calendar.ValidatePropsReportsMissing | packages-web/calendar/src/components/CalendarContainer.ts:381-396 | a gesture that misses its target is reported, behind the banner, by a rule it violates |
| Calendar.ReplaceAllSkips | packages-web/calendar/src/components/CalendarContainer.ts:215 | text in which no occurrence of the pattern starts is copied unchanged by the global replace, which goes on with what follows |
| Calendar.ReplaceAllJoin | packages-web/calendar/src/components/CalendarContainer.ts:215 | for a pattern whose first character does not recur in it, every occurrence between pieces that do not hold the pattern is replaced, and the pieces are kept |
| Calendar.EventsXPathNoConstraint | packages-web/calendar/src/components/CalendarContainer.ts:215-216 | without a constraint the XPath is `//` and the entity |
| Calendar.EventsXPathSubstitutes | packages-web/calendar/src/components/CalendarContainer.ts:213-216 | the XPath is `//`, the entity, then the constraint with every `[%CurrentObject%]` replaced by the context GUID; the rest of the constraint may hold anything, other system tokens such as `[%CurrentUser%]` included |
| Calendar.EventsXPathAround | packages-web/calendar/src/components/CalendarContainer.ts:213-216 | a constraint with one `[%CurrentObject%]` between texts that do not hold it gets the GUID in its place and keeps both texts |
| Calendar.EventsXPathOwnerConstraint | packages-web/calendar/src/components/CalendarContainer.ts:213-216 | the constraint `[Cal.Event_Owner = '[%CurrentObject%]']` becomes `[Cal.Event_Owner = '<guid>']` |
| Calendar.EventsXPathOtherToken | packages-web/calendar/src/components/CalendarContainer.ts:213-216 | in `[Cal.Event_Owner = '[%CurrentObject%]'][Creator = '[%CurrentUser%]']` only the context object's token is replaced and `[%CurrentUser%]` is kept as written |
| Calendar.FetchRequest | packages-web/calendar/src/components/CalendarContainer.ts:170-176 | a request is made exactly when there is an object and the chosen source is set up: the XPath retrieval for an XPath source with an entity, or the microflow run on the object's GUID |
| Calendar.Render | packages-web/calendar/src/components/CalendarContainer.ts:76-103 | gestures are accepted exactly when there is an object and editing is not "never" (`isReadOnly`, lines 161-162); selectable only then; the alert is the configuration check's message, `ValidateProps(p)`, so it is empty exactly when the configuration passes; the first day comes from the attribute unless that is 0; the parsed style is passed only while loading |
| Calendar.EventAction | packages-web/calendar/src/components/CalendarContainer.ts:261-286 | a call is made exactly for an object with a GUID whose click gesture is configured, and it is that gesture's microflow or nanoflow on the object's context |
| Calendar.SlotAction | packages-web/calendar/src/components/CalendarContainer.ts:302-324 | a call is made exactly when the slot gesture is configured, and the microflow only for an object with a GUID |
| Calendar.DropAction | packages-web/calendar/src/components/CalendarContainer.ts:353-376 | a call is made exactly for an object with a GUID whose drop gesture is configured |
| Calendar.DispatchMatchesValidation | packages-web/calendar/src/components/CalendarContainer.ts:378-393 | on a configuration that passes the check and an object with a GUID, each gesture makes a call exactly when it is not "do nothing" |
| Calendar.CalendarEvent.Moved | packages-web/calendar/src/components/CalendarContainer.ts:329-336 | a new event object that keeps the dropped event's title, all-day flag, GUID and colour, and takes the new start and end |
| Calendar.IndexOf | packages-web/calendar/src/components/CalendarContainer.ts:328 | `indexOf` gives the first position holding that very event object, compared by identity, or -1 exactly when the object is not listed |
| Calendar.SpliceAt | packages-web/calendar/src/components/CalendarContainer.ts:338 | `splice(i, 1, x)` at a position within the list, counted from the end when negative, updates that one position |
| Calendar.DropUpdateFound | packages-web/calendar/src/components/CalendarContainer.ts:326-339 | when the dropped event object is in the list, the moved event takes its place where it first appears; nothing else changes |
| Calendar.DropUpdateNotFound | packages-web/calendar/src/components/CalendarContainer.ts:328-338 | when the dropped event object is not in the list, as after a fetch that built new objects with the same fields, the moved event replaces the last event, since `splice(-1, …)` counts from the end |
| Calendar.DropUpdateEmpty | packages-web/calendar/src/components/CalendarContainer.ts:337-338 | on an empty list the moved event becomes the only one |
| Calendar.DropUpdateLength | packages-web/calendar/src/components/CalendarContainer.ts:337-338 | the list keeps its length unless it was empty |
| Calendar.DropWrites | packages-web/calendar/src/components/CalendarContainer.ts:342-347 | four attribute writes, all on the retrieved object |
| Calendar.SlotWrites | packages-web/calendar/src/components/CalendarContainer.ts:291-296 | four attribute writes, all on the created object |
| Calendar.SubscriptionChannels | packages-web/calendar/src/components/CalendarContainer.ts:182-210 | eight subscriptions for an object, none without one |
| Calendar.SubscriptionsConcernObject | packages-web/calendar/src/components/CalendarContainer.ts:182-210 | every subscription but the entity one listens on the object, and every handler works on that object |
| Calendar.CalendarContainer.constructor | packages-web/calendar/src/components/CalendarContainer.ts:64-74 | the initial state: no events, loading, first-day attribute 0, no handles |
| Calendar.CalendarContainer.ResetSubscriptions | packages-web/calendar/src/components/CalendarContainer.ts:178-211 | the old handles are no longer live; the new ones are fresh, live, eight for an object and none without one; the bus moves on by that many handles; no request is sent |
| Calendar.CalendarContainer.SetFirstDay | packages-web/calendar/src/components/CalendarContainer.ts:144-148 | for an object, the first day becomes its attribute, which `render` then uses unless it is 0; without one nothing changes |
| Calendar.CalendarContainer.SetStartPosition | packages-web/calendar/src/components/CalendarContainer.ts:150-159 | loading ends, so `render` passes no style; the start position is the object's attribute when one is set up, else the current time |
| Calendar.CalendarContainer.Mount | packages-web/calendar/src/components/CalendarContainer.ts:105-111 | for an object: one fetch, the first day and the start position read, loading ended; without one nothing changes |
| Calendar.CalendarContainer.ReceiveProps | packages-web/calendar/src/components/CalendarContainer.ts:117-127 | the fetch for the new object is sent twice; the first day and start position are read for it; loading ends; the subscriptions are renewed for it; all under the current properties, after which the new ones are taken |
| Calendar.CalendarContainer.FetchData | packages-web/calendar/src/components/CalendarContainer.ts:170-176 | at most the one retrieval `FetchRequest` chooses is sent |
| Calendar.CalendarContainer.OnClickEvent | packages-web/calendar/src/components/CalendarContainer.ts:253-259 | the clicked event's object is requested by GUID |
| Calendar.CalendarContainer.ExecuteEventAction | packages-web/calendar/src/components/CalendarContainer.ts:261-286 | at most the one call `EventAction` chooses is sent |
| Calendar.CalendarContainer.OnClickSlot | packages-web/calendar/src/components/CalendarContainer.ts:288-290 | an object of the event entity is created |
| Calendar.CalendarContainer.OnSlotCreated | packages-web/calendar/src/components/CalendarContainer.ts:291-297 | the four writes on the new object, then the slot action |
| Calendar.CalendarContainer.OnDropEvent | packages-web/calendar/src/components/CalendarContainer.ts:326-341 | a new moved event object is spliced into the list where the dropped object is found, and the dropped event's host object is requested |
| Calendar.CalendarContainer.OnDropRetrieved | packages-web/calendar/src/components/CalendarContainer.ts:342-348 | the four writes on the retrieved object, then the drop action |
| Calendar.ResubscribeTwice | packages-web/calendar/src/components/CalendarContainer.ts:178-211 | after two resets the second set of handles is held and live; no handle held before, and none from the first reset, is still live |
| ColorPicker.Message | packages-web/color-picker/src/components/ColorPickerContainer.ts:83-87 | each option is reported with its own non-empty message |
| ColorPicker.ValidateProps | packages-web/color-picker/src/components/ColorPickerContainer.ts:80-91 | the result is "" exactly when the chosen option has its target; otherwise it is the banner and that option's message |
| ColorPicker.GetValue | packages-web/color-picker/src/components/ColorPickerContainer.ts:126-132 | the colour attribute of the object, or "" without an object |
| ColorPicker.ValidateColorAsWritten | packages-web/color-picker/src/components/ColorPickerContainer.ts:157-167 | a non-empty value without `#` is refused, giving colour "" and the format alert; any other value is kept and the alert left alone |
| ColorPicker.ValidateColor | packages-web/color-picker/src/components/ColorPickerContainer.ts:157-167 | the corrected check: a value is also accepted when it starts with `rgb` |
| ColorPicker.ValidateColorAgrees | packages-web/color-picker/src/components/ColorPickerContainer.ts:157-167 | the two checks agree on every value that does not start with `rgb` |
| ColorPicker.SplitChannels | packages-web/color-picker/src/components/ColorPickerContainer.ts:117 | the comma-separated channels split back into the three numbers |
| ColorPicker.RgbRoundTrip | packages-web/color-picker/src/components/ColorPickerContainer.ts:116-117 | reading the stored `rgb(r,g,b)` back gives the picked channels |
| ColorPicker.NoHashInChannels | packages-web/color-picker/src/components/ColorPickerContainer.ts:116-119 | the `rgb`/`rgba` renderings have no `#` in their channels |
| ColorPicker.ValidateColorAsWrittenRefusesRgb | packages-web/color-picker/src/components/ColorPickerContainer.ts:159-163 | the check as written refuses the widget's own `rgb(...)` value |
| ColorPicker.ValidateColorAcceptsRendered | packages-web/color-picker/src/components/ColorPickerContainer.ts:114-119 | the corrected check accepts whatever value the widget stores, in every format |
| ColorPicker.ColorWrite | packages-web/color-picker/src/components/ColorPickerContainer.ts:111-124 | the colour is written exactly when there is a colour and an object and editing is allowed, and it is written in the configured format |
| ColorPicker.EnabledMeansWritable | packages-web/color-picker/src/components/ColorPickerContainer.ts:52-54 | editing is allowed only with editing "default", not read-only, with an object whose colour attribute is not read-only |
| ColorPicker.ColorWriteWhenEnabled | packages-web/color-picker/src/components/ColorPickerContainer.ts:113 | under the flag `render` computes, a picked colour is written exactly when editing is allowed |
| ColorPicker.OnChangeAction | packages-web/color-picker/src/components/ColorPickerContainer.ts:179-208 | a call is made exactly with an object, editing allowed and the option's target selected: the microflow on the object's GUID as a selection, or the page or nanoflow on the object's context |
| ColorPicker.DispatchMatchesValidation | packages-web/color-picker/src/components/ColorPickerContainer.ts:184-198 | on a configuration that passes the check, an enabled picker always calls its microflow or opens its page |
| ColorPicker.NanoflowChecksDisagree | packages-web/color-picker/src/components/ColorPickerContainer.ts:199 | a nanoflow property with only its parameter description passes the configuration check, yet no nanoflow is called |
| ColorPicker.SubscriptionChannels | packages-web/color-picker/src/components/ColorPickerContainer.ts:138-148 | two subscriptions on the object for an object, none without one; both notify `handleSubscriptions` |
| ColorPicker.ColorPickerContainer.constructor | packages-web/color-picker/src/components/ColorPickerContainer.ts:43-48 | no handles, and the state the colour check gives for the object |
| ColorPicker.ColorPickerContainer.Render | packages-web/color-picker/src/components/ColorPickerContainer.ts:50-69 | sets the disabled flag; the alert in the state wins over the configuration check; the style is parsed |
| ColorPicker.ColorPickerContainer.ResetSubscriptions | packages-web/color-picker/src/components/ColorPickerContainer.ts:134-149 | the old handles are no longer live; the two new ones, for an object, are fresh and live |
| ColorPicker.ColorPickerContainer.ReceiveProps | packages-web/color-picker/src/components/ColorPickerContainer.ts:71-74 | the old handles leave the live map, and exactly the new object's two subscriptions, under the current properties, are added and held; no request is sent; the colour is rechecked for the new object; then the new properties are taken |
| ColorPicker.ColorPickerContainer.Unmount | packages-web/color-picker/src/components/ColorPickerContainer.ts:76-78 | exactly the handles held leave the live map; nothing else on the bus changes |
| ColorPicker.ColorPickerContainer.HandleSubscriptions | packages-web/color-picker/src/components/ColorPickerContainer.ts:151-155 | the colour is read again from the component's own object, as it reads when notified |
| ColorPicker.ColorPickerContainer.UpdateColorValue | packages-web/color-picker/src/components/ColorPickerContainer.ts:111-124 | sends at most the one write `ColorWrite` chooses, and clears the alert exactly then |
| ColorPicker.ColorPickerContainer.HandleInputChange | packages-web/color-picker/src/components/ColorPickerContainer.ts:169-177 | the typed text becomes the colour; the alert is cleared exactly when the text is non-empty, and is "Invalid color" otherwise |
| ColorPicker.ColorPickerContainer.HandleOnChange | packages-web/color-picker/src/components/ColorPickerContainer.ts:179-208 | at most the one call `OnChangeAction` chooses is sent |
| ObjectFilters.Keys | packages/util-widgets/src/ObjectFilters.ts:2 | `Object.keys` lists the keys in the record's order, which for an object is enumeration order: array indices ascending, then the other keys as they were added |
| ObjectFilters.IndexValueInjective | packages/util-widgets/src/ObjectFilters.ts:2 | two different array-index keys have different numbers, so indices are ordered strictly |
| ObjectFilters.InsertionPoint | packages/util-widgets/src/ObjectFilters.ts:5 | a new key goes after every key that may precede it and before the first that may not; a key that is not an array index goes at the end |
| ObjectFilters.PutProp | packages/util-widgets/src/ObjectFilters.ts:5 | after `{ ...result, [key]: v }` the key reads `v`, and every other key reads as before |
| ObjectFilters.PutKeys | packages/util-widgets/src/ObjectFilters.ts:5 | the spread adds the key, and no other |
| ObjectFilters.PutPresent | packages/util-widgets/src/ObjectFilters.ts:5 | a key already present keeps its place and takes the new value |
| ObjectFilters.PutAbsent | packages/util-widgets/src/ObjectFilters.ts:5 | a new key goes in at its insertion point: among the array indices by its number, or at the end when it is not one |
| ObjectFilters.PutIndexBeforeName | packages/util-widgets/src/ObjectFilters.ts:5 | adding key `"0"` to an object holding `"name"` puts `"0"` first |
| ObjectFilters.PutIsObject | packages/util-widgets/src/ObjectFilters.ts:5 | the spread keeps the record an object: distinct keys in enumeration order |
| ObjectFilters.PutAppends | packages/util-widgets/src/ObjectFilters.ts:5 | a key that may follow every key present is appended at the end |
| ObjectFilters.AssembleProp | packages/util-widgets/src/ObjectFilters.ts:11 | after the reduce, a key that was reduced over reads as in `source`, and any other key as before |
| ObjectFilters.AssembleIsObject | packages/util-widgets/src/ObjectFilters.ts:11 | the reduce builds an object: distinct keys in enumeration order |
| ObjectFilters.KeysNotIn | packages/util-widgets/src/ObjectFilters.ts:4 | the filter keeps exactly the keys that are not excluded |
| ObjectFilters.PropAt | packages/util-widgets/src/ObjectFilters.ts:5 | `source[key]` for a listed key is the value listed with it |
| ObjectFilters.AssembleWithout | packages/util-widgets/src/ObjectFilters.ts:3-5 | the reduce over the kept keys appends the kept properties, in order, with their values, whenever the outcome is an object |
| ObjectFilters.WithoutIsObject | packages/util-widgets/src/ObjectFilters.ts:1-6 | leaving properties out of an object gives an object |
| ObjectFilters.ExcludeIsWithout | packages/util-widgets/src/ObjectFilters.ts:1-6 | `exclude` keeps the properties that are not excluded, with their values, in the source's enumeration order, array indices included |
| ObjectFilters.ExcludeKeys | packages/util-widgets/src/ObjectFilters.ts:1-6 | a key is in the result exactly when it is in `source` and not excluded |
| ObjectFilters.ExcludeValues | packages/util-widgets/src/ObjectFilters.ts:1-6 | a kept key reads as in `source`, an excluded key as undefined |
| ObjectFilters.ExcludeNothing | packages/util-widgets/src/ObjectFilters.ts:1-6 | excluding nothing gives a copy of `source`, order included |
| ObjectFilters.ExcludeIdempotent | packages/util-widgets/src/ObjectFilters.ts:1-6 | excluding the same keys twice is excluding them once |
| ObjectFilters.DefinedKeys | packages/util-widgets/src/ObjectFilters.ts:10 | the filter keeps exactly the selected keys whose value is defined |
| ObjectFilters.OnlyKeys | packages/util-widgets/src/ObjectFilters.ts:8-12 | a key is in the result exactly when it is selected and defined in `source` |
| ObjectFilters.OnlyValues | packages/util-widgets/src/ObjectFilters.ts:8-12 | a selected key reads as in `source`, any other key as undefined |
| ObjectFilters.OnlyIsObject | packages/util-widgets/src/ObjectFilters.ts:8-12 | the result is an object: a key selected twice appears once, and selected array indices come first in ascending order, whatever the selection order |
| ObjectFilters.PluckFromList | packages/util-widgets/src/ObjectFilters.ts:14-16 | the result is no longer than the list |
| ObjectFilters.PluckAppend | packages/util-widgets/src/ObjectFilters.ts:14-16 | plucking a concatenation plucks each part in turn, so input order is kept |
| ObjectFilters.PluckMembership | packages/util-widgets/src/ObjectFilters.ts:15 | a value is plucked exactly when some defined item holds it under the key |
| ObjectFilters.PluckAllDefined | packages/util-widgets/src/ObjectFilters.ts:14-16 | when every item and its property are defined, plucking maps over the whole list |

## Left out

- Timers are not modelled: the calendar's `setRefreshInterval` and `clearRefreshInterval` are left out.
- Building a `Date` is not modelled. Times are `Timestamp` numbers that are passed through. The current time is a parameter.
- `Host.Get` reads an attribute the object does not have as "". JavaScript gives `undefined`; both are falsy, and every modelled use only tests or copies the value.
- `Host.GetNumber` reads a missing numeric attribute as 0. For the first day this matches JavaScript, where `undefined` is falsy and `render` falls back to the property. For the start position, `new Date(undefined)` is an invalid date, which the model shows as time 0.
- The objects in the calendar's event list come from `setEventsFromMxObjects`, which is left out. The model therefore does not say which objects the list holds, only how a drop changes it.
- `setEventsFromMxObjects` is not modelled. It maps retrieved host objects to events, and what a retrieval returns is host behaviour.
- `Calendar.CalendarContainer.ReceiveProps` leaves out the call to `setRefreshInterval`, since timers are not modelled.
- React merges the state updates made in one lifecycle method. The model applies them one after another, which leaves the same final state.
- `Calendar.CalendarContainer.Mount` and `Calendar.CalendarContainer.ReceiveProps` do not test the alert in the state. The calendar never sets that alert to anything but "", so the test always passes.
- The calendar's `componentWillUnMount` is left out. Its name is misspelled, so React never calls it.
- The calendar's `alertMessage` state is never set to anything but "". `Calendar.Render` therefore lets the configuration check decide the alert.
- The error callbacks (`mx.ui.error`), `logError`, and the `try`/`catch` around `parseStyle` are left out. None of the modelled string operations throws.
- The form origin (`mxform`) passed with each action is left out.
- The nanoflow's body is an opaque list of steps.
- Strings are sequences of code points, not UTF-16 code units.
- `StyleParser.ToUpper` upper-cases ASCII letters only, where JavaScript also upper-cases other letters.
- `Calendar.ReplaceAll` treats `$` in the replacement text literally. JavaScript gives `$&`, `$1` and similar patterns a special meaning there.
- The alpha channel of a picked colour is modelled as the text JavaScript writes for that number. Writing out floating-point numbers is not modelled.
- A `null` item makes `pluckFromList` throw at `item[key]`. The model has only defined and undefined items.
- Properties inherited from an object's prototype are not modelled.
- `exclude` and `only` copy an object; the model's records have no identity.
- `ObjectFilters.ExcludeIsWithout`, `ObjectFilters.ExcludeKeys`, `ObjectFilters.ExcludeValues`, `ObjectFilters.ExcludeNothing` and `ObjectFilters.ExcludeIdempotent` require the source record to be an object (`ObjectFilters.IsObject`): distinct keys, in enumeration order. The properties of every JavaScript object satisfy this.
- Symbol keys are not modelled; the helpers only see string keys.
- The host's handle numbering is modelled as an unbounded counter.
- `ColorPicker.ColorPickerContainer.constructor` and `ColorPicker.ColorPickerContainer.ReceiveProps` use the corrected colour check `ColorPicker.ValidateColor`, not the check as written. See the finding below.

## Findings

| source | as written | input that shows it | evidently intended | confidence | as-written member | corrected member |
|---|---|---|---|---|---|---|
| packages-web/color-picker/src/components/ColorPickerContainer.ts:157-166 | `validateColor` refuses every non-empty value without `#` | the widget's own stored value `rgb(0,0,0)`, written by `updateColorValue` in the "rgb" format: it comes back as colour "" with the alert "Color value should be of format 'rgb', 'rgba' or 'hex'" | accept the `rgb` and `rgba` values the alert names and the widget writes itself | not executed | ColorPicker.ValidateColorAsWrittenRefusesRgb | ColorPicker.ValidateColorAcceptsRendered |

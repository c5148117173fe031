/** What the extractor promises, stated over the calls it makes on its
    context (`ExtractorEvents` and the functions it is built from). */
module AngularI18nProperties {
  import opened Wrappers
  import opened JsStrings
  import opened HtmlTranslationExtraction
  import opened AngularI18nExtractor

  // ---------------------------------------------------------------------
  // Counting and ordering calls

  /** The number of `registerTranslation` calls among `events`. */
  function CountRegistrations(events: seq<Event>): (n: nat)
    ensures n <= |events|
    ensures n == 0 <==> forall i :: 0 <= i < |events| ==> events[i].Diagnostic?
  {
    if events == [] then 0
    else (if events[0].Registration? then 1 else 0) + CountRegistrations(events[1..])
  }

  lemma {:induction false} CountRegistrationsAppend(a: seq<Event>, b: seq<Event>)
    ensures CountRegistrations(a + b) == CountRegistrations(a) + CountRegistrations(b)
  {
    if a != [] {
      assert (a + b)[0] == a[0] && (a + b)[1..] == a[1..] + b;
      CountRegistrationsAppend(a[1..], b);
    } else {
      assert a + b == b;
    }
  }

  /** Where a call stands in the order the handlers make their calls: the id
      error first, then the missing attribute, then the missing value, and
      last the registration or the missing default text. */
  function Step(event: Event): nat {
    match event
    case Registration(_, _, _) => 3
    case Diagnostic(kind, _, _) =>
      match kind
      case MissingIdIndicator => 0
      case EmptyId => 0
      case MissingCorrespondingAttribute => 1
      case MissingCorrespondingValue => 2
      case MissingDefaultText => 3
  }

  /** The calls in `events` follow the handlers' order, each step at most once. */
  ghost predicate InStepOrder(events: seq<Event>) {
    forall i, j :: 0 <= i < j < |events| ==> Step(events[i]) < Step(events[j])
  }

  // ---------------------------------------------------------------------
  // Selecting markers

  /** Filtering markers distributes over concatenation, so markers keep their
      attribute order. */
  lemma {:induction false} AttributeMarkersAppend(a: seq<Attribute>, b: seq<Attribute>)
    ensures AttributeMarkers(a + b) == AttributeMarkers(a) + AttributeMarkers(b)
  {
    if a != [] {
      assert (a + b)[0] == a[0] && (a + b)[1..] == a[1..] + b;
      AttributeMarkersAppend(a[1..], b);
    } else {
      assert a + b == b;
    }
  }

  /** A single attribute is a marker exactly when its name starts with `i18n-`. */
  lemma AttributeMarkersSingleton(a: Attribute)
    ensures AttributeMarkers([a]) == if IsAttributeMarker(a.name) then [a] else []
  {
  }

  /** The target of the marker `i18n-<name>` is `<name>`. */
  lemma TargetNameOfMarker(name: string)
    ensures IsAttributeMarker(I18nAttributePrefix + name)
    ensures TargetName(I18nAttributePrefix + name) == name
  {
  }

  // ---------------------------------------------------------------------
  // Deriving ids

  /** Only the first `@@` separates; later ones belong to the id. */
  lemma TranslationIdKeepsLaterIndicators(position: SourcePosition)
    ensures TranslationId(Attribute("i18n", "a@@b@@c", position)) == Success("b@@c")
  {
    var v := "a@@b@@c";
    assert !OccursAt(v, IdIndicator, 0) by { assert v[0..2][0] == 'a'; }
    assert OccursAt(v, IdIndicator, 1);
    assert IsFirstOccurrence(v, IdIndicator, 1);
  }

  // ---------------------------------------------------------------------
  // The element marker

  /** The element marker registers the first text at the element when there
      is a text and an id; otherwise it reports the missing default text at
      the marker, after any id error. */
  lemma ElementMarkerOutcome(element: AngularElement, attribute: Attribute)
    ensures IdEvents(attribute) <= ElementEvents(element, attribute)
    ensures InStepOrder(ElementEvents(element, attribute))
    ensures CountRegistrations(ElementEvents(element, attribute)) == 1
      <==> |element.texts| > 0 && TranslationId(attribute).Success?
    ensures |element.texts| > 0 && TranslationId(attribute).Success? ==>
      ElementEvents(element, attribute)
      == [Registration(TranslationId(attribute).value, element.texts[0], element.startPosition)]
    ensures !(|element.texts| > 0 && TranslationId(attribute).Success?) ==>
      var events := ElementEvents(element, attribute);
      && CountRegistrations(events) == 0
      && |events| == |IdEvents(attribute)| + 1
      && events[|events| - 1] == Diagnostic(MissingDefaultText, attribute.name, attribute.startPosition)
  {
  }

  // ---------------------------------------------------------------------
  // Attribute markers

  /** One attribute marker reports its id error first, then the missing
      attribute, then the missing value, and registers last. */
  lemma MarkerOrder(element: AngularElement, marker: Attribute)
    ensures IdEvents(marker) <= MarkerEvents(element, marker)
    ensures InStepOrder(MarkerEvents(element, marker))
  {
    var sibling := Sibling(element, marker);
    var id := IdEvents(marker);
    var missing := SiblingEvents(element, marker, sibling);
    var registration := MarkerRegistrationEvents(marker, sibling);
    assert MarkerEvents(element, marker) == id + (missing + registration);
    assert forall i :: 0 <= i < |id| ==> Step(id[i]) == 0;
    assert forall i :: 0 <= i < |registration| ==> Step(registration[i]) == 3;
  }

  /** A marker reports a missing attribute exactly when no attribute has its
      target name, and a missing value exactly when there is no first such
      attribute with a non-empty value: a missing attribute gives both. */
  lemma MarkerSiblingDiagnostics(element: AngularElement, marker: Attribute)
    ensures Diagnostic(MissingCorrespondingAttribute, marker.name, element.startPosition) in MarkerEvents(element, marker)
      <==> forall i :: 0 <= i < |element.attributes| ==> element.attributes[i].name != TargetName(marker.name)
    ensures Diagnostic(MissingCorrespondingValue, marker.name, element.startPosition) in MarkerEvents(element, marker)
      <==> forall i :: IsFirstNamed(element.attributes, TargetName(marker.name), i) ==> element.attributes[i].value == []
  {
    var sibling := Sibling(element, marker);
    var id := IdEvents(marker);
    var missing := SiblingEvents(element, marker, sibling);
    var registration := MarkerRegistrationEvents(marker, sibling);
    assert forall ev :: ev in MarkerEvents(element, marker) && ev.Diagnostic? && Step(ev) != 0 ==> ev in missing;
    FindAttributeIsFirst(element.attributes, TargetName(marker.name));
  }

  /** A marker registers, once, exactly when its id is derived and the first
      attribute with its target name has a non-empty value; it then registers
      that value under that id at the marker, and reports nothing. */
  lemma MarkerRegistration(element: AngularElement, marker: Attribute)
    ensures CountRegistrations(MarkerEvents(element, marker)) <= 1
    ensures forall ev :: ev in MarkerEvents(element, marker) && ev.Registration? ==>
      ev.translationId != [] && ev.defaultText != []
    ensures forall i :: IsFirstNamed(element.attributes, TargetName(marker.name), i) ==>
      (CountRegistrations(MarkerEvents(element, marker)) == 1
       <==> TranslationId(marker).Success? && element.attributes[i].value != [])
    ensures forall i ::
      (IsFirstNamed(element.attributes, TargetName(marker.name), i)
       && TranslationId(marker).Success? && element.attributes[i].value != []) ==>
      MarkerEvents(element, marker)
      == [Registration(TranslationId(marker).value, element.attributes[i].value, marker.startPosition)]
    ensures Sibling(element, marker).None? ==> CountRegistrations(MarkerEvents(element, marker)) == 0
  {
    var sibling := Sibling(element, marker);
    var id := IdEvents(marker);
    var missing := SiblingEvents(element, marker, sibling);
    var registration := MarkerRegistrationEvents(marker, sibling);
    CountRegistrationsAppend(id, missing);
    CountRegistrationsAppend(id + missing, registration);
    assert CountRegistrations(id) == 0 && CountRegistrations(missing) == 0;
    assert CountRegistrations(registration) == |registration| by {
      if registration != [] { assert registration[1..] == []; }
    }
    FindAttributeIsFirst(element.attributes, TargetName(marker.name));
  }

  /** Processing markers one after the other: the calls for a concatenation
      of marker lists are the calls for each list in turn. */
  lemma {:induction false} AttributesEventsAppend(element: AngularElement, a: seq<Attribute>, b: seq<Attribute>)
    ensures AttributesEvents(element, a + b) == AttributesEvents(element, a) + AttributesEvents(element, b)
    decreases |b|
  {
    if b != [] {
      var init := b[..|b| - 1];
      var last := b[|b| - 1];
      assert (a + b)[..|a + b| - 1] == a + init;
      assert (a + b)[|a + b| - 1] == last;
      assert AttributesEvents(element, a + b)
        == AttributesEvents(element, a + init) + MarkerEvents(element, last);
      AttributesEventsAppend(element, a, init);
      AppendAssociative(AttributesEvents(element, a), AttributesEvents(element, init), MarkerEvents(element, last));
    } else {
      assert a + b == a;
    }
  }

  /** Each marker is handled on its own: the calls for marker `k` are
      `MarkerEvents` of that marker, whatever the markers before and after it
      produce. */
  lemma MarkerHandledIndependently(element: AngularElement, markers: seq<Attribute>, k: nat)
    requires k < |markers|
    ensures AttributesEvents(element, markers)
      == AttributesEvents(element, markers[..k]) + MarkerEvents(element, markers[k])
         + AttributesEvents(element, markers[k + 1..])
  {
    assert markers == markers[..k] + [markers[k]] + markers[k + 1..];
    AttributesEventsAppend(element, markers[..k] + [markers[k]], markers[k + 1..]);
    AttributesEventsAppend(element, markers[..k], [markers[k]]);
    assert AttributesEvents(element, [markers[k]]) == MarkerEvents(element, markers[k]) by {
      assert [markers[k]][..0] == [];
    }
  }

  /** The markers register at most one translation each, every one with a
      non-empty id and a non-empty default text. */
  lemma {:induction false} AttributeRegistrations(element: AngularElement, markers: seq<Attribute>)
    ensures CountRegistrations(AttributesEvents(element, markers)) <= |markers|
    ensures forall ev :: ev in AttributesEvents(element, markers) && ev.Registration? ==>
      ev.translationId != [] && ev.defaultText != []
    decreases |markers|
  {
    if markers != [] {
      var init := markers[..|markers| - 1];
      var last := markers[|markers| - 1];
      AttributeRegistrations(element, init);
      MarkerRegistration(element, last);
      CountRegistrationsAppend(AttributesEvents(element, init), MarkerEvents(element, last));
    }
  }

  // ---------------------------------------------------------------------
  // The whole element

  /** The element marker is the first attribute named exactly `i18n`, and its
      calls come before all calls for attribute markers. */
  lemma ElementMarkerFirst(element: AngularElement)
    ensures forall i :: IsFirstNamed(element.attributes, I18nAttributeName, i) ==>
      ExtractorEvents(element)
      == ElementEvents(element, element.attributes[i]) + AttributesEvents(element, AttributeMarkers(element.attributes))
    ensures (forall i :: 0 <= i < |element.attributes| ==> element.attributes[i].name != I18nAttributeName) ==>
      ExtractorEvents(element) == AttributesEvents(element, AttributeMarkers(element.attributes))
  {
    FindAttributeIsFirst(element.attributes, I18nAttributeName);
  }

  /** At most one registration for the element marker and one per attribute
      marker, and every registered id is non-empty. */
  lemma ExtractorRegistrations(element: AngularElement)
    ensures CountRegistrations(ExtractorEvents(element)) <= 1 + |AttributeMarkers(element.attributes)|
    ensures forall ev :: ev in ExtractorEvents(element) && ev.Registration? ==> ev.translationId != []
  {
    var markers := AttributeMarkers(element.attributes);
    AttributeRegistrations(element, markers);
    CountRegistrationsAppend(ElementMarkerEvents(element), AttributesEvents(element, markers));
    match FindAttribute(element.attributes, I18nAttributeName)
    case None =>
    case Some(attribute) => ElementMarkerOutcome(element, attribute);
  }

  /** The extractor keeps no state: two runs on fresh contexts make the same calls. */
  method ExtractionIsStateless(element: AngularElement) returns (first: seq<Event>, second: seq<Event>)
    ensures first == second
    ensures first == ExtractorEvents(element)
  {
    var context := new ExtractionContext();
    AngularI18nTranslationsExtractor(element, context);
    first := context.events;
    context := new ExtractionContext();
    AngularI18nTranslationsExtractor(element, context);
    second := context.events;
  }

  // ---------------------------------------------------------------------
  // Single elements

  /** An element marker with an id and a text registers that text at the
      element; without a text it reports the missing default text. */
  lemma ElementMarkerExamples(at: SourcePosition, marker: SourcePosition)
    ensures ExtractorEvents(AngularElement([Attribute("i18n", "@@id", marker)], ["Hello"], at))
      == [Registration("id", "Hello", at)]
    ensures ExtractorEvents(AngularElement([Attribute("i18n", "@@id", marker)], [], at))
      == [Diagnostic(MissingDefaultText, "i18n", marker)]
  {
    var attribute := Attribute("i18n", "@@id", marker);
    assert IsFirstOccurrence(attribute.value, IdIndicator, 0);
    TranslationIdByFirstIndicator(attribute);
    ElementWithoutAttributeMarkers(AngularElement([attribute], ["Hello"], at));
    ElementWithoutAttributeMarkers(AngularElement([attribute], [], at));
  }

  /** An element marker without a usable id reports the id error and, after
      it, the missing default text, even when the element has a text. */
  lemma ElementMarkerWithoutIndicatorReportsTwice(at: SourcePosition, marker: SourcePosition)
    ensures ExtractorEvents(AngularElement([Attribute("i18n", "no-marker", marker)], ["Hello"], at))
      == [Diagnostic(MissingIdIndicator, "i18n", marker), Diagnostic(MissingDefaultText, "i18n", marker)]
  {
    var attribute := Attribute("i18n", "no-marker", marker);
    var element := AngularElement([attribute], ["Hello"], at);
    assert forall j :: !OccursAt(attribute.value, IdIndicator, j) by {
      forall j ensures !OccursAt(attribute.value, IdIndicator, j) {
        if 0 <= j && j + 2 <= |attribute.value| {
          assert attribute.value[j..j + 2][0] == attribute.value[j] != '@';
        }
      }
    }
    TranslationIdByFirstIndicator(attribute);
    assert TranslationId(attribute) == Failure(MissingIdIndicator);
    ElementWithoutAttributeMarkers(element);
  }

  /** The same for a value whose `@@` is its end. */
  lemma ElementMarkerWithEmptyIdReportsTwice(at: SourcePosition, marker: SourcePosition)
    ensures ExtractorEvents(AngularElement([Attribute("i18n", "@@", marker)], ["Hello"], at))
      == [Diagnostic(EmptyId, "i18n", marker), Diagnostic(MissingDefaultText, "i18n", marker)]
  {
  }

  /** Without attribute markers, only the element marker makes calls. */
  lemma ElementWithoutAttributeMarkers(element: AngularElement)
    requires forall i :: 0 <= i < |element.attributes| ==> !IsAttributeMarker(element.attributes[i].name)
    ensures ExtractorEvents(element) == ElementMarkerEvents(element)
  {
  }

  /** An attribute marker with a non-empty sibling registers the sibling's
      value at the marker. */
  lemma AttributeMarkerRegistersSibling(at: SourcePosition, marker: SourcePosition, title: SourcePosition)
    ensures ExtractorEvents(AngularElement(
        [Attribute("i18n-title", "@@t1", marker), Attribute("title", "Hi", title)], [], at))
      == [Registration("t1", "Hi", marker)]
  {
    var markerAttribute := Attribute("i18n-title", "@@t1", marker);
    var element := AngularElement([markerAttribute, Attribute("title", "Hi", title)], [], at);
    TargetNameOfMarker("title");
    assert AttributeMarkers(element.attributes) == [markerAttribute] by {
      assert element.attributes[1..] == [Attribute("title", "Hi", title)];
      assert !IsAttributeMarker("title") by { assert I18nAttributePrefix[0] != "title"[0]; }
    }
    assert IsFirstOccurrence(markerAttribute.value, IdIndicator, 0);
    TranslationIdByFirstIndicator(markerAttribute);
    assert MarkerEvents(element, markerAttribute) == [Registration("t1", "Hi", marker)];
    assert [markerAttribute][..0] == [];
  }

  /** A missing sibling is reported twice. */
  lemma AttributeMarkerWithoutSiblingReportsTwice(at: SourcePosition, marker: SourcePosition)
    ensures ExtractorEvents(AngularElement([Attribute("i18n-title", "@@t1", marker)], [], at))
      == [Diagnostic(MissingCorrespondingAttribute, "i18n-title", at),
          Diagnostic(MissingCorrespondingValue, "i18n-title", at)]
  {
  }

  /** An empty sibling is reported once. */
  lemma AttributeMarkerWithEmptySiblingReportsOnce(at: SourcePosition, marker: SourcePosition, title: SourcePosition)
    ensures ExtractorEvents(AngularElement(
        [Attribute("i18n-title", "@@t1", marker), Attribute("title", "", title)], [], at))
      == [Diagnostic(MissingCorrespondingValue, "i18n-title", at)]
  {
    var markerAttribute := Attribute("i18n-title", "@@t1", marker);
    var element := AngularElement([markerAttribute, Attribute("title", "", title)], [], at);
    TargetNameOfMarker("title");
    assert AttributeMarkers(element.attributes) == [markerAttribute] by {
      assert element.attributes[1..] == [Attribute("title", "", title)];
      assert !IsAttributeMarker("title") by { assert I18nAttributePrefix[0] != "title"[0]; }
    }
    assert IsFirstOccurrence(markerAttribute.value, IdIndicator, 0);
    TranslationIdByFirstIndicator(markerAttribute);
    assert MarkerEvents(element, markerAttribute) == [Diagnostic(MissingCorrespondingValue, "i18n-title", at)];
    assert [markerAttribute][..0] == [];
  }

  /** The element marker does not check its text: an empty first text is
      registered as the default translation. */
  lemma ElementMarkerRegistersEmptyText(at: SourcePosition, marker: SourcePosition)
    ensures ExtractorEvents(AngularElement([Attribute("i18n", "@@id", marker)], [""], at))
      == [Registration("id", "", at)]
  {
    var attribute := Attribute("i18n", "@@id", marker);
    var element := AngularElement([attribute], [""], at);
    assert IsFirstOccurrence(attribute.value, IdIndicator, 0);
    TranslationIdByFirstIndicator(attribute);
    assert ElementEvents(element, attribute) == [Registration("id", "", at)];
    ElementWithoutAttributeMarkers(element);
  }
}

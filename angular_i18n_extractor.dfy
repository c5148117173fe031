/** The Angular `i18n` marker extractor: for one parsed element it registers
    the translations its `i18n` and `i18n-<name>` attributes mark, and emits a
    diagnostic for each marker it cannot use.

    The first part states, as functions, which attributes are markers, how a
    translation id is derived, and which sequence of context calls the
    extractor makes. The second part is the extractor itself: one method per
    function of the source (and one for the body of its attribute loop), each
    appending its calls to the context's log and proved to append exactly the
    sequence the functions describe. */
module AngularI18nExtractor {
  import opened Wrappers
  import opened JsStrings
  import opened HtmlTranslationExtraction

  /** The name of the element marker. */
  const I18nAttributeName: string := "i18n"
  /** Attribute markers are named `i18n-<name>`, here written as this prefix. */
  const I18nAttributePrefix: string := I18nAttributeName + "-"
  /** Separates a marker's meaning from its custom id. */
  const IdIndicator: string := "@@"

  // ---------------------------------------------------------------------
  // Selecting attributes

  /** `i` is the index of the first attribute named `name`. */
  ghost predicate IsFirstNamed(attributes: seq<Attribute>, name: string, i: int) {
    0 <= i < |attributes| && attributes[i].name == name &&
    forall j :: 0 <= j < i ==> attributes[j].name != name
  }

  /** `attributes.find(attribute => attribute.name === name)`. */
  function FindAttribute(attributes: seq<Attribute>, name: string): (r: Option<Attribute>)
    ensures r.None? <==> forall i :: 0 <= i < |attributes| ==> attributes[i].name != name
    ensures r.Some? ==> r.value in attributes && r.value.name == name
  {
    if attributes == [] then None
    else if attributes[0].name == name then Some(attributes[0])
    else FindAttribute(attributes[1..], name)
  }

  /** What `FindAttribute` finds is the first attribute with that name. */
  lemma {:induction false} FindAttributeIsFirst(attributes: seq<Attribute>, name: string)
    ensures FindAttribute(attributes, name).Some? ==> exists i :: IsFirstNamed(attributes, name, i)
    ensures forall i :: IsFirstNamed(attributes, name, i) ==> FindAttribute(attributes, name) == Some(attributes[i])
  {
    if attributes == [] {
    } else if attributes[0].name == name {
      assert IsFirstNamed(attributes, name, 0);
    } else {
      FindAttributeIsFirst(attributes[1..], name);
      assert forall i :: 0 < i && IsFirstNamed(attributes, name, i) ==> IsFirstNamed(attributes[1..], name, i - 1);
      assert forall i :: IsFirstNamed(attributes[1..], name, i) ==> IsFirstNamed(attributes, name, i + 1);
    }
  }

  /** The name test of the attribute-marker pattern `^i18n-.*$`. */
  predicate IsAttributeMarker(name: string): (r: bool)
    ensures r <==> |I18nAttributePrefix| <= |name| && name[..|I18nAttributePrefix|] == I18nAttributePrefix
    ensures r ==> name != I18nAttributeName
  {
    I18nAttributePrefix <= name
  }

  /** `attributes.filter(attribute => I18N_ATTRIBUTE_REGEX.test(attribute.name))`. */
  function AttributeMarkers(attributes: seq<Attribute>): (r: seq<Attribute>)
    ensures forall a :: a in r <==> a in attributes && IsAttributeMarker(a.name)
    ensures forall a :: a in r ==> a.name != I18nAttributeName
    ensures |r| <= |attributes|
  {
    if attributes == [] then []
    else
      (if IsAttributeMarker(attributes[0].name) then [attributes[0]] else [])
      + AttributeMarkers(attributes[1..])
  }

  /** The name of the attribute an attribute marker translates: the marker's
      name without its first `|I18nAttributePrefix|` characters. */
  function TargetName(markerName: string): (r: string)
    ensures IsAttributeMarker(markerName) ==> I18nAttributePrefix + r == markerName
    ensures |markerName| < |I18nAttributePrefix| ==> r == []
  {
    Substr(markerName, |I18nAttributePrefix|)
  }

  // ---------------------------------------------------------------------
  // Deriving translation ids

  /** The custom id of a marker: what follows the first `@@` in its value,
      or the diagnostic that explains why there is none. */
  function TranslationId(attribute: Attribute): (r: Result<string, ErrorKind>)
    ensures r.Success? ==>
      && 0 < |r.value| <= |attribute.value| - |IdIndicator|
      && attribute.value[|attribute.value| - |r.value|..] == r.value
      && attribute.value[|attribute.value| - |r.value| - |IdIndicator|..|attribute.value| - |r.value|] == IdIndicator
    ensures r.Failure? ==> r.error == MissingIdIndicator || r.error == EmptyId
  {
    var index := IndexOf(attribute.value, IdIndicator);
    if index < 0 then Failure(MissingIdIndicator)
    else if index + |IdIndicator| == |attribute.value| then Failure(EmptyId)
    else Success(attribute.value[index + |IdIndicator|..])
  }

  /** The id is what follows the first `@@`, verbatim: MissingIdIndicator
      when there is no `@@`, EmptyId when the first one ends the value. */
  lemma TranslationIdByFirstIndicator(attribute: Attribute)
    ensures (forall j :: !OccursAt(attribute.value, IdIndicator, j))
      <==> TranslationId(attribute) == Failure(MissingIdIndicator)
    ensures forall i :: IsFirstOccurrence(attribute.value, IdIndicator, i) ==>
      TranslationId(attribute) ==
        if i + |IdIndicator| == |attribute.value| then Failure(EmptyId)
        else Success(attribute.value[i + |IdIndicator|..])
  {
  }

  // ---------------------------------------------------------------------
  // The calls the extractor makes on its context

  /** The calls deriving the id of `attribute` makes: none on success, one
      error at the attribute otherwise. */
  function IdEvents(attribute: Attribute): (r: seq<Event>)
    ensures r == [] <==> TranslationId(attribute).Success?
    ensures TranslationId(attribute).Failure? ==>
      r == [Diagnostic(TranslationId(attribute).error, attribute.name, attribute.startPosition)]
  {
    match TranslationId(attribute)
    case Success(_) => []
    case Failure(kind) => [Diagnostic(kind, attribute.name, attribute.startPosition)]
  }

  /** The calls made for the element marker `attribute`. */
  function ElementEvents(element: AngularElement, attribute: Attribute): (r: seq<Event>)
    ensures 1 <= |r| <= 2
  {
    IdEvents(attribute)
    + if |element.texts| > 0 && TranslationId(attribute).Success? then
        [Registration(TranslationId(attribute).value, element.texts[0], element.startPosition)]
      else
        [Diagnostic(MissingDefaultText, attribute.name, attribute.startPosition)]
  }

  /** The attribute an attribute marker translates: the first one named by
      the marker's target name. */
  function Sibling(element: AngularElement, marker: Attribute): (r: Option<Attribute>)
    ensures r.Some? ==> r.value in element.attributes && r.value.name == TargetName(marker.name)
  {
    FindAttribute(element.attributes, TargetName(marker.name))
  }

  /** The errors about the sibling of `marker`: a missing attribute, then a
      missing (undefined or empty) value, both at the element. */
  function SiblingEvents(element: AngularElement, marker: Attribute, sibling: Option<Attribute>): (r: seq<Event>)
    ensures |r| <= 2
    ensures r == [] <==> sibling.Some? && sibling.value.value != []
  {
    (if sibling.None? then [Diagnostic(MissingCorrespondingAttribute, marker.name, element.startPosition)] else [])
    + (if sibling.None? || sibling.value.value == [] then
         [Diagnostic(MissingCorrespondingValue, marker.name, element.startPosition)]
       else [])
  }

  /** The registration of `marker`, when both its id and a non-empty value
      for it are at hand. */
  function MarkerRegistrationEvents(marker: Attribute, sibling: Option<Attribute>): (r: seq<Event>)
    ensures |r| <= 1
    ensures r != [] ==> r[0].Registration? && r[0].translationId != [] && r[0].defaultText != []
  {
    var translationId := TranslationId(marker);
    if translationId.Success? && sibling.Some? && sibling.value.value != [] then
      [Registration(translationId.value, sibling.value.value, marker.startPosition)]
    else []
  }

  /** The calls made for one attribute marker `marker` of `element`. */
  function MarkerEvents(element: AngularElement, marker: Attribute): (r: seq<Event>)
    ensures 1 <= |r| <= 3
  {
    var sibling := Sibling(element, marker);
    IdEvents(marker) + SiblingEvents(element, marker, sibling) + MarkerRegistrationEvents(marker, sibling)
  }

  /** The calls made for the attribute markers `markers`, one marker after the other. */
  function AttributesEvents(element: AngularElement, markers: seq<Attribute>): (r: seq<Event>)
    ensures |markers| <= |r| <= 3 * |markers|
    decreases |markers|
  {
    if markers == [] then []
    else AttributesEvents(element, markers[..|markers| - 1]) + MarkerEvents(element, markers[|markers| - 1])
  }

  /** Regrouping a concatenation; the attribute loop's invariant needs it. */
  lemma AppendAssociative<T>(a: seq<T>, b: seq<T>, c: seq<T>)
    ensures (a + b) + c == a + (b + c)
  {
  }

  /** Processing one more marker appends that marker's calls. */
  lemma AttributesEventsOfPrefix(element: AngularElement, markers: seq<Attribute>, k: nat)
    requires k < |markers|
    ensures AttributesEvents(element, markers[..k + 1])
      == AttributesEvents(element, markers[..k]) + MarkerEvents(element, markers[k])
  {
    assert markers[..k + 1][..k] == markers[..k];
  }

  /** The calls made for the element marker, if `element` has one. */
  function ElementMarkerEvents(element: AngularElement): (r: seq<Event>)
    ensures r == [] <==> FindAttribute(element.attributes, I18nAttributeName).None?
  {
    match FindAttribute(element.attributes, I18nAttributeName)
    case None => []
    case Some(attribute) => ElementEvents(element, attribute)
  }

  /** All calls made for `element`: those for its element marker, then those
      for its attribute markers. */
  function ExtractorEvents(element: AngularElement): (r: seq<Event>)
    ensures |AttributeMarkers(element.attributes)| <= |r|
    ensures FindAttribute(element.attributes, I18nAttributeName).Some? ==>
      1 + |AttributeMarkers(element.attributes)| <= |r|
  {
    ElementMarkerEvents(element) + AttributesEvents(element, AttributeMarkers(element.attributes))
  }

  // ---------------------------------------------------------------------
  // The extractor

  /** `extractTranslationId(attribute, context)`. */
  method ExtractTranslationId(attribute: Attribute, context: ExtractionContext)
    returns (translationId: Option<string>)
    modifies context
    ensures context.events == old(context.events) + IdEvents(attribute)
    ensures translationId == TranslationId(attribute).ToOption()
  {
    var index := IndexOf(attribute.value, IdIndicator);
    if index < 0 {
      context.EmitError(MissingIdIndicator, attribute.name, attribute.startPosition);
      translationId := None;
    } else if index + |IdIndicator| == |attribute.value| {
      context.EmitError(EmptyId, attribute.name, attribute.startPosition);
      translationId := None;
    } else {
      translationId := Some(Substr(attribute.value, index + |IdIndicator|));
    }
  }

  /** `handleTranslationsOfElements(element, context, attribute)`. */
  method HandleTranslationsOfElements(element: AngularElement, context: ExtractionContext, attribute: Attribute)
    modifies context
    ensures context.events == old(context.events) + ElementEvents(element, attribute)
  {
    var translationId := ExtractTranslationId(attribute, context);
    // `translationId` is truthy: present and not the empty string
    if |element.texts| > 0 && translationId.Some? && translationId.value != [] {
      var defaultTranslation := element.texts[0];
      context.RegisterTranslation(translationId.value, defaultTranslation, element.startPosition);
    } else {
      context.EmitError(MissingDefaultText, attribute.name, attribute.startPosition);
    }
  }

  /** One turn of the `for` loop of `handleTranslationsOfAttributes`: the
      handling of the attribute marker `i18nAttribute`. */
  method HandleTranslationOfAttribute(
    element: AngularElement, context: ExtractionContext, i18nAttribute: Attribute)
    modifies context
    ensures context.events == old(context.events) + MarkerEvents(element, i18nAttribute)
  {
    var translationId := ExtractTranslationId(i18nAttribute, context);
    var attributeName := TargetName(i18nAttribute.name);
    var attribute := FindAttribute(element.attributes, attributeName);

    if attribute.None? {
      context.EmitError(MissingCorrespondingAttribute, i18nAttribute.name, element.startPosition);
    }

    var defaultText: Option<string> := if attribute.Some? then Some(attribute.value.value) else None;

    // `!defaultText`: undefined or the empty string
    if defaultText.None? || defaultText.value == [] {
      context.EmitError(MissingCorrespondingValue, i18nAttribute.name, element.startPosition);
    }

    // `translationId` is truthy exactly when an id was derived
    assert (translationId.Some? && translationId.value != []) == TranslationId(i18nAttribute).Success?;
    if translationId.Some? && translationId.value != [] && attribute.Some?
      && defaultText.Some? && defaultText.value != []
    {
      context.RegisterTranslation(translationId.value, defaultText.value, i18nAttribute.startPosition);
    }
  }

  /** `handleTranslationsOfAttributes(element, context, i18nAttributes)`. */
  method HandleTranslationsOfAttributes(
    element: AngularElement, context: ExtractionContext, i18nAttributes: seq<Attribute>)
    modifies context
    ensures context.events == old(context.events) + AttributesEvents(element, i18nAttributes)
  {
    for k := 0 to |i18nAttributes|
      invariant context.events == old(context.events) + AttributesEvents(element, i18nAttributes[..k])
    {
      HandleTranslationOfAttribute(element, context, i18nAttributes[k]);
      AttributesEventsOfPrefix(element, i18nAttributes, k);
      AppendAssociative(old(context.events), AttributesEvents(element, i18nAttributes[..k]), MarkerEvents(element, i18nAttributes[k]));
    }
    assert i18nAttributes[..|i18nAttributes|] == i18nAttributes;
  }

  /** `angularI18nTranslationsExtractor(element, context)`, the entry point. */
  method AngularI18nTranslationsExtractor(element: AngularElement, context: ExtractionContext)
    modifies context
    ensures context.events == old(context.events) + ExtractorEvents(element)
  {
    var i18nElementTranslation := FindAttribute(element.attributes, I18nAttributeName);

    if i18nElementTranslation.Some? {
      HandleTranslationsOfElements(element, context, i18nElementTranslation.value);
    }

    assert context.events == old(context.events) + ElementMarkerEvents(element);

    var i18nAttributeTranslation := AttributeMarkers(element.attributes);

    HandleTranslationsOfAttributes(element, context, i18nAttributeTranslation);
    AppendAssociative(old(context.events), ElementMarkerEvents(element), AttributesEvents(element, i18nAttributeTranslation));
  }
}

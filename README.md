# Angular `i18n` marker extractor, modelled in Dafny

This project models the Angular `i18n` marker extractor of
webpack-angular-translate (`src/html/angular-i18n-translations-extractor.ts`).
It runs once per parsed template element and reports to a context. It makes three decisions:

- **Element marker.** For the first attribute named exactly `i18n`, it registers the
  element's first text under the marker's custom id, at the element's position.
  If there is no text or no id, it reports the missing default text at the marker.
- **Attribute markers.** It handles every attribute named `i18n-<name>`, in
  attribute order. The target is the first attribute named `<name>`. A missing target
  is reported. A missing or empty value is reported. When the id and a non-empty value
  are both there, the value is registered at the marker's position.
- **Custom ids.** The id is everything after the first `@@` of the marker's value.
  A value without `@@` is reported (MissingIdIndicator). A value whose first `@@` is
  its end is reported too (EmptyId).

The context (`HtmlTranslationExtraction.ExtractionContext`) is a class with a log
`events: seq<Event>`. Each `emitError` or `registerTranslation` call appends one
`Diagnostic(kind, attributeName, position)` or `Registration(id, text, position)`.
Each function of the source is a method that appends to this log. Its `ensures`
equates the new log with the old one plus a pure function of the element:
`IdEvents`, `ElementEvents`, `MarkerEvents`, `AttributesEvents` or `ExtractorEvents`.
The properties are lemmas about those functions, in `AngularI18nProperties`.

Files:

- `wrappers.dfy`: `Option` and `Result`.
- `js_strings.dfy`: `indexOf` and one-argument `substr` on `seq<char>`.
- `extraction_context.dfy`: elements, attributes, error kinds, events and the context class.
- `angular_i18n_extractor.dfy`: the three constants, attribute selection, id derivation,
  the event specification and the extractor's methods.
- `angular_i18n_properties.dfy`: the lemmas.

## Model

| member | source | states |
|---|---|---|
| `JsStrings.IndexOf` | src/html/angular-i18n-translations-extractor.ts:75 | The result is the first index where the pattern occurs. It is -1 exactly when the pattern occurs nowhere. |
| `JsStrings.Substr` | src/html/angular-i18n-translations-extractor.ts:81 | For a start inside the string, the result is what follows the first `start` characters. A start past the end gives the empty string. |
| `HtmlTranslationExtraction.ExtractionContext.EmitError` | src/html/angular-i18n-translations-extractor.ts:39-79 | Appends exactly one diagnostic, with its kind, its marker name and its position, to the log, as each `emitError` call at lines 39, 55, 61, 77 and 79 reports one. |
| `HtmlTranslationExtraction.ExtractionContext.RegisterTranslation` | src/html/angular-i18n-translations-extractor.ts:33-69 | Appends exactly one registration `{translationId, defaultText, position}` to the log, as each `registerTranslation` call at lines 33-37 and 65-69 records one. |
| `AngularI18nExtractor.FindAttribute` | src/html/angular-i18n-translations-extractor.ts:12 | Finds nothing exactly when no attribute has the name. What it finds is one of the element's attributes and has that name. |
| `AngularI18nExtractor.FindAttributeIsFirst` | src/html/angular-i18n-translations-extractor.ts:52 | What `find` returns is the first attribute with that name. A first such attribute exists whenever something is found. |
| `AngularI18nExtractor.AttributeMarkers` | src/html/angular-i18n-translations-extractor.ts:18 | An attribute is selected exactly when it is on the element and its name starts with `i18n-`. The bare `i18n` attribute is never selected. |
| `AngularI18nExtractor.IsAttributeMarker` | src/html/angular-i18n-translations-extractor.ts:4 | A name passes the marker test exactly when it starts with `i18n-`. The bare name `i18n` never passes. |
| `AngularI18nExtractor.TargetName` | src/html/angular-i18n-translations-extractor.ts:51 | For a marker name, `i18n-` followed by the result gives back the marker name. A name shorter than the prefix gives the empty string. |
| `AngularI18nExtractor.TranslationId` | src/html/angular-i18n-translations-extractor.ts:74-83 | A derived id is non-empty and a suffix of the value, and the two characters just before it are `@@`. A failure is MissingIdIndicator or EmptyId. |
| `AngularI18nExtractor.TranslationIdByFirstIndicator` | src/html/angular-i18n-translations-extractor.ts:75-81 | MissingIdIndicator exactly when `@@` occurs nowhere. At the first `@@`: EmptyId if it ends the value, otherwise the rest of the value, verbatim. |
| `AngularI18nExtractor.IdEvents` | src/html/angular-i18n-translations-extractor.ts:76-80 | Success makes no call. A failure makes exactly one call: the error's kind, with the attribute's name and position. |
| `AngularI18nExtractor.ElementEvents` | src/html/angular-i18n-translations-extractor.ts:28-40 | The element marker makes one or two calls. |
| `AngularI18nExtractor.Sibling` | src/html/angular-i18n-translations-extractor.ts:51-52 | The target found is on the element and has the marker's target name. |
| `AngularI18nExtractor.SiblingEvents` | src/html/angular-i18n-translations-extractor.ts:54-62 | At most two errors. None exactly when the target exists with a non-empty value. |
| `AngularI18nExtractor.MarkerRegistrationEvents` | src/html/angular-i18n-translations-extractor.ts:64-70 | At most one call. It is a registration with a non-empty id and a non-empty default text. |
| `AngularI18nExtractor.MarkerEvents` | src/html/angular-i18n-translations-extractor.ts:50-70 | Every attribute marker makes between one and three calls. |
| `AngularI18nExtractor.AttributesEvents` | src/html/angular-i18n-translations-extractor.ts:49-71 | `n` markers make between `n` and `3n` calls. |
| `AngularI18nExtractor.ElementMarkerEvents` | src/html/angular-i18n-translations-extractor.ts:12-16 | There are calls for the element marker exactly when an attribute is named `i18n`. |
| `AngularI18nExtractor.ExtractorEvents` | src/html/angular-i18n-translations-extractor.ts:12-20 | There is at least one call per attribute marker, plus at least one for an element marker when there is one. |
| `AngularI18nExtractor.AttributesEventsOfPrefix` | src/html/angular-i18n-translations-extractor.ts:49 | One more turn of the loop appends exactly that marker's calls. |
| `AngularI18nExtractor.ExtractTranslationId` | src/html/angular-i18n-translations-extractor.ts:74-83 | Appends `IdEvents(attribute)` and returns the derived id, or nothing. |
| `AngularI18nExtractor.HandleTranslationsOfElements` | src/html/angular-i18n-translations-extractor.ts:23-41 | Appends `ElementEvents(element, attribute)`. |
| `AngularI18nExtractor.HandleTranslationOfAttribute` | src/html/angular-i18n-translations-extractor.ts:50-70 | One turn of the attribute loop appends `MarkerEvents(element, marker)`. |
| `AngularI18nExtractor.HandleTranslationsOfAttributes` | src/html/angular-i18n-translations-extractor.ts:43-72 | Appends `AttributesEvents(element, i18nAttributes)`. A loop invariant ties the log to the markers handled so far. |
| `AngularI18nExtractor.AngularI18nTranslationsExtractor` | src/html/angular-i18n-translations-extractor.ts:8-21 | Appends `ExtractorEvents(element)`. |
| `AngularI18nProperties.AttributeMarkersAppend` | src/html/angular-i18n-translations-extractor.ts:18 | Selection distributes over concatenation, so markers keep their attribute order. |
| `AngularI18nProperties.AttributeMarkersSingleton` | src/html/angular-i18n-translations-extractor.ts:18 | A single attribute is selected exactly when its name starts with `i18n-`. |
| `AngularI18nProperties.TargetNameOfMarker` | src/html/angular-i18n-translations-extractor.ts:51 | `i18n-<name>` is a marker, and its target name is `<name>`. |
| `AngularI18nProperties.TranslationIdKeepsLaterIndicators` | src/html/angular-i18n-translations-extractor.ts:75-81 | The value `a@@b@@c` yields the id `b@@c`. Only the first `@@` separates. |
| `AngularI18nProperties.ElementMarkerOutcome` | src/html/angular-i18n-translations-extractor.ts:28-40 | Any id error comes first. With a text and an id, the only call is a registration of `texts[0]` at the element. Otherwise there is no registration, and the last call reports the missing default text at the marker. A bad id therefore gives two errors. |
| `AngularI18nProperties.MarkerOrder` | src/html/angular-i18n-translations-extractor.ts:50-69 | A marker's calls start with its id error and keep the order id error, missing attribute, missing value, registration. Each appears at most once. |
| `AngularI18nProperties.MarkerSiblingDiagnostics` | src/html/angular-i18n-translations-extractor.ts:52-62 | Missing attribute is reported exactly when no attribute has the target name. Missing value is reported exactly when no first such attribute has a non-empty value. A missing attribute therefore gives both errors, and an empty one gives only the second. |
| `AngularI18nProperties.MarkerRegistration` | src/html/angular-i18n-translations-extractor.ts:64-70 | There is at most one registration, with a non-empty id and a non-empty text. It happens exactly when the id is derived and the first target has a non-empty value. It is then the only call: that value under that id, at the marker. |
| `AngularI18nProperties.AttributesEventsAppend` | src/html/angular-i18n-translations-extractor.ts:49-71 | The calls for two lists of markers in a row are the calls for each list in turn. |
| `AngularI18nProperties.MarkerHandledIndependently` | src/html/angular-i18n-translations-extractor.ts:49-71 | Marker `k` contributes exactly its own `MarkerEvents`, between the calls of the markers before it and those after it. A failing marker never stops the later ones. |
| `AngularI18nProperties.AttributeRegistrations` | src/html/angular-i18n-translations-extractor.ts:49-70 | `n` markers register at most `n` translations. Every one has a non-empty id and a non-empty default text. |
| `AngularI18nProperties.ElementMarkerFirst` | src/html/angular-i18n-translations-extractor.ts:12-20 | Only the first `i18n` attribute is used. All its calls come before all attribute-marker calls. Without an `i18n` attribute, only attribute markers make calls. |
| `AngularI18nProperties.ExtractorRegistrations` | src/html/angular-i18n-translations-extractor.ts:12-20 | An element gets at most one registration plus one per `i18n-` marker. Every registered id is non-empty. |
| `AngularI18nProperties.ExtractionIsStateless` | src/html/angular-i18n-translations-extractor.ts:4-21 | Two runs on fresh contexts record the same calls, namely `ExtractorEvents(element)`. |
| `AngularI18nProperties.ElementMarkerExamples` | src/html/angular-i18n-translations-extractor.ts:28-40 | `i18n="@@id"` with text `Hello` registers `{id, Hello}` at the element. With no text it gives only the missing-default error. |
| `AngularI18nProperties.ElementMarkerWithoutIndicatorReportsTwice` | src/html/angular-i18n-translations-extractor.ts:28-40 | `i18n="no-marker"` with a text gives MissingIdIndicator, then MissingDefaultText. |
| `AngularI18nProperties.ElementMarkerWithEmptyIdReportsTwice` | src/html/angular-i18n-translations-extractor.ts:28-40 | `i18n="@@"` with a text gives EmptyId, then MissingDefaultText. |
| `AngularI18nProperties.ElementMarkerRegistersEmptyText` | src/html/angular-i18n-translations-extractor.ts:31-37 | An empty first text is registered as the default translation. |
| `AngularI18nProperties.ElementWithoutAttributeMarkers` | src/html/angular-i18n-translations-extractor.ts:12-20 | When no attribute name starts with `i18n-`, the extractor makes only the element marker's calls. |
| `AngularI18nProperties.AttributeMarkerRegistersSibling` | src/html/angular-i18n-translations-extractor.ts:49-70 | `i18n-title="@@t1"` with `title="Hi"` registers `{t1, Hi}` at the marker, and reports nothing. |
| `AngularI18nProperties.AttributeMarkerWithoutSiblingReportsTwice` | src/html/angular-i18n-translations-extractor.ts:54-62 | `i18n-title="@@t1"` without `title` gives the missing-attribute error, then the missing-value error, both at the element. |
| `AngularI18nProperties.AttributeMarkerWithEmptySiblingReportsOnce` | src/html/angular-i18n-translations-extractor.ts:58-62 | `i18n-title="@@t1"` with `title=""` gives only the missing-value error. |

## Behaviour worth knowing

- An element marker whose id cannot be derived is reported twice: the id error, then the
  missing default text (lines 28, 38-40). `i18n="no-marker"` gives MissingIdIndicator and
  `i18n="@@"` gives EmptyId, each followed by MissingDefaultText.
  See `ElementMarkerWithoutIndicatorReportsTwice` and `ElementMarkerWithEmptyIdReportsTwice`.
- An attribute marker whose target attribute is missing is reported twice: `defaultText` is
  `undefined`, so line 61 fires after line 55. See `AttributeMarkerWithoutSiblingReportsTwice`.
- The element path does not check `texts[0].text` (line 31), so an empty first text is
  registered as the default translation. See `ElementMarkerRegistersEmptyText`.
  Attribute-marker registrations always have a non-empty text (`AttributeRegistrations`).

The JavaScript truthiness checks are modelled as follows. The attribute from `find`
is always truthy, so the check on line 14 is a `Some?` check. `translationId` on lines
31 and 64 is read as "present and non-empty". `TranslationId` proves that a derived
id is never empty, so this is the same as "an id was derived". `!defaultText` on
line 60 is "missing or empty".

## Left out

- Message wording and `context.asHtml()`: an error is its kind, the marker's name and its position.
  The exact text, including the double space on line 39, is not modelled.
- What `registerTranslation` does downstream (storage, deduplication, aggregation across files)
  is external. Only the call is logged.
- The `AngularElement` and `Attribute` types and the HTML parser are not part of this model
  (lines 1-2). They are plain records here. A source position is an opaque line and column
  that is only copied.
- The regular expression `^i18n-.*$` is a prefix check on `i18n-`. Its `.` does not match
  line terminators, but attribute names cannot contain them.
- Strings are `seq<char>`. UTF-16 code units, as `indexOf` and `substr` count them, are not modelled.
- Nothing of the attribute loop is left out, but its body is a method of its own,
  `HandleTranslationOfAttribute`, with the same statements in the same order. This keeps
  each proof small.

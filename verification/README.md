# Syllabus workshop generator — verified model of its text logic

`utils_taller.py` drives a workshop-syllabus generator. It asks Gemini for a
reply divided into sections, each section opened by a tag line such as
`[PERFIL_INGRESO]`. Its local helper `_extr` reads each section out of the
reply with a regular expression, and `generar_bloques` collects the ten
sections into a dictionary. `generar_syllabus_completo` then asks Gemini for
three refined sections. It copies a Google Docs template, sends one
`replaceAllText` request for each of the twelve `{{...}}` placeholders in a
fixed dictionary, gives the organisation's domain editor access to the copy,
and returns the copy's edit link.

The model is written in Dafny and has seven modules:

- `Wrappers` (`wrappers.dfy`) holds `Option` and `Result`.
- `PyStr` (`pystr.dfy`) holds CPython's `str.isspace`, `str.strip` and the
  search for the leftmost literal occurrence.
- `TagExtraction` (`tag_extraction.dfy`) holds `_extr`. It follows
  `re.search(r"\[TAG]\n(.*?)(?=\[|$)", texto, re.S)` step by step:
  - the match starts at the leftmost tag line;
  - the lazy group runs to the first position where the lookahead holds.
    Without MULTILINE, `$` holds at the end of the text and just before a
    final newline.
- `TaggedResponse` (`tagged_response.dfy`) holds the reply format the prompt
  asks for: a list of (tag, content) sections and how they are rendered as
  text. Looking a tag up in that list is the reference reading the extractor
  is proved against.
- `Gemini` (`gemini.dfy`) holds `call_gemini` reduced to its status branch.
  The HTTP reply is a parameter.
- `Bloques` (`bloques.dfy`) holds the ten-key dictionary of `generar_bloques`.
- `Syllabus` (`syllabus.dfy`) holds the rest of `generar_syllabus_completo`:
  - `pedir_seccion`;
  - the placeholder dictionary as a list of (token, value) pairs in insertion
    order;
  - the services as a class `GoogleApis` that records each Drive and Docs call
    in order;
  - the replace loop as a method with a loop invariant;
  - the whole function as a method;
  - the edit link.

## Model

| member | source | states |
|---|---|---|
| PyStr.Strip | utils_taller.py:112 | `strip()` never lengthens a text and leaves no whitespace at either end. StripSpec and StripUnique below pin down exactly which slice it keeps. |
| PyStr.StripSpec | utils_taller.py:112 | `strip()` keeps a slice. Everything outside it is whitespace in CPython's sense. A non-empty slice starts and ends with non-whitespace. |
| PyStr.StripUnique | utils_taller.py:112 | Any slice with those properties is exactly what `strip()` returns, so the stripped value is determined uniquely. |
| PyStr.StripIdempotent | utils_taller.py:170 | Stripping twice is the same as stripping once. This is why `pedir_seccion` stripping what `call_gemini` already stripped changes nothing. |
| PyStr.StripIgnoresTrailingSpace | utils_taller.py:112 | A whitespace character appended to a text does not change its strip. |
| PyStr.FindFirst | utils_taller.py:111 | A found index lies inside the text, with room for the whole pattern after it. FindFirstSpec and FindFirstIsLeftmost below show it is the leftmost occurrence. |
| PyStr.FindFirstSpec | utils_taller.py:111 | The search finds an occurrence with no occurrence before it. It reports none only when the pattern occurs nowhere. |
| PyStr.FindFirstIsLeftmost | utils_taller.py:111 | An occurrence with none before it is the one the search returns. |
| TagExtraction.Extract | utils_taller.py:110-112 | `_extr` never returns a value holding `[`, nor one with whitespace at either end, whatever the text. ExtractAbsent and ExtractPresent below give its value in each case. |
| TagExtraction.GroupEnd | utils_taller.py:111 | The lazy group ends at the first position where the lookahead for a `[` or `$` holds, under DOTALL and without MULTILINE. |
| TagExtraction.NextBracket | utils_taller.py:111 | Returns the first `[` at or after a position, or the end of the text. |
| TagExtraction.ExtractAbsent | utils_taller.py:111-112 | If `[TAG]` plus newline occurs nowhere, `_extr` returns `""` and never fails. |
| TagExtraction.ExtractPresent | utils_taller.py:111-112 | If the tag line's leftmost occurrence is at k, `_extr` returns the strip of the text from just after that line up to the next `[` or the end. |
| TagExtraction.GroupEndAsNextBracket | utils_taller.py:111-112 | Stopping at `$` before a final newline gives the same stripped result as stopping at the next `[` or the end. |
| TagExtraction.ExtractIsInfix | utils_taller.py:111-112 | The extracted value is a contiguous piece of the response text. |
| TagExtraction.ExtractOfSection | utils_taller.py:111-112 | Locality. Suppose the tag line does not occur in the text before the section, and the text after it starts at a `[` or is empty. Then extraction yields the stripped section body, whatever that surrounding text is. |
| TaggedResponse.ExtractRendered | utils_taller.py:110-112 | For a well-formed reply, in any order and with sections missing or repeated, `_extr` agrees with the reference reading. A present tag yields the stripped content of the first section carrying it; a missing tag yields `""`. |
| TaggedResponse.ExtractRenderedAt | utils_taller.py:110-112 | Each section of a well-formed reply that no earlier section shares a tag with is read back as its stripped content. |
| TaggedResponse.ExtractIgnoresOtherSection | utils_taller.py:110-112 | Dropping one section from a well-formed reply, repeated tags allowed, leaves the extraction of every other tag unchanged. |
| Gemini.CallGemini | utils_taller.py:48-50 | It succeeds exactly on status 200, and then returns the stripped candidate text, which stripping again leaves unchanged. Any other status gives an error carrying the status and body. |
| Bloques.BloquesWith | utils_taller.py:114-125 | The dictionary has exactly the ten keys `perfil_ingreso`, `objetivos`, `perfil_egreso`, `outline`, `t1`, `d1`, `t2`, `d2`, `t3`, `d3`. |
| Bloques.Bloques | utils_taller.py:110-125 | Whatever the reply text, the dictionary has exactly the ten keys, and each holds `_extr` of its own tag. |
| Bloques.GenerarBloques | utils_taller.py:108-125 | `generar_bloques` succeeds exactly when the Gemini call returns status 200, and then returns the dictionary read from the stripped candidate text. Otherwise it raises that call's error. |
| Bloques.KeysAndTagsDistinct | utils_taller.py:114-125 | The ten keys are pairwise distinct, and so are the ten tags. |
| Bloques.BlockTagsAreTagNames | utils_taller.py:115-124 | None of the ten tags contains a bracket, so each one is matched as a literal tag line. |
| Bloques.BloquesWithBindsEachTag | utils_taller.py:114-125 | Each key is bound to the extractor applied to the tag at the same position. |
| Bloques.BloquesOfReply | utils_taller.py:110-125 | For a well-formed reply, in any order and with sections missing or repeated, each key holds the stripped content of the first section with its tag, or `""` if there is none. |
| Bloques.GenerarBloquesOfReply | utils_taller.py:108-125 | For a status-200 reply whose stripped text is a well-formed reply, `generar_bloques` returns a dictionary in which each key holds the stripped content of the first section with its tag, or `""`. |
| Syllabus.AnioText | utils_taller.py:194 | `str(anio)` is `"2025"`. |
| Syllabus.PedirSeccion | utils_taller.py:170 | `pedir_seccion` returns exactly what `call_gemini` returns, whether text or error: its second strip changes nothing. |
| Syllabus.RefineAll | utils_taller.py:172-183 | The three refinements succeed exactly when all three calls return status 200, and then hold the stripped texts. Otherwise the first failing call's error is raised. |
| Syllabus.PlaceholderInsidePlaceholder | utils_taller.py:192-205 | A `{{name}}` token whose name has no braces occurs inside another such token only as the whole of it. |
| Syllabus.PlaceholderKeys | utils_taller.py:192-205 | The dictionary has twelve keys. Each is a `{{name}}` token and they are pairwise distinct. |
| Syllabus.PlaceholdersDoNotOverlap | utils_taller.py:192-205 | No key occurs anywhere inside another key. |
| Syllabus.Mapping | utils_taller.py:192-205 | The (token, value) list has twelve entries whose tokens are placeholders and pairwise distinct, so it is a dictionary. |
| Syllabus.MappingLookup | utils_taller.py:192-205 | Looking up each key gives the value listed beside it. |
| Syllabus.MappingBindings | utils_taller.py:192-205 | The dictionary binds the following:<br>`{{nombre_del_curso}}` to the course name;<br>`{{anio}}` to `"2025"`;<br>`{{generalidades_del_programa}}`, `{{perfil_ingreso}}` and `{{detalles_plan_estudios}}` to the three refined sections. |
| Syllabus.MappingUsesOnly | utils_taller.py:192-205 | The dictionary depends on the course name, the exit profile, the six objective texts and the refined sections only. `nivel`, `objetivos_mejorados`, `perfil_ingreso` and `outline` are never bound directly; they reach the document only through the refinement prompt (lines 158-166). `publico` and `siguiente` are never used. |
| Syllabus.ReplacePlanAt | utils_taller.py:207-208 | Request k replaces token k with value k in the given document, matching case. |
| Syllabus.PlanReplacesEachPlaceholderOnce | utils_taller.py:207-208 | The loop sends twelve requests, all to the copied document and all matching case. Each request asks for a different placeholder and supplies the value the dictionary holds for it. |
| Syllabus.EditUrl | utils_taller.py:217 | The document id can be read back from the edit link built for it. |
| Syllabus.UrlParsedRebuilds | utils_taller.py:217 | Any link that names an id is the edit link built for that id. |
| Syllabus.EditUrlInjective | utils_taller.py:217 | Distinct documents get distinct edit links. |
| Syllabus.DocumentCallsShape | utils_taller.py:186-215 | One syllabus costs fourteen Drive and Docs calls. The template copy is first and the domain permission is last. Every call in between edits the copy. |
| Syllabus.GoogleApis.DriveCopy | utils_taller.py:186-190 | Records one copy of the given file under the given name and returns the new copy's id. |
| Syllabus.GoogleApis.DocsReplace | utils_taller.py:221-234 | `_replace` records one `replaceAllText` request, with `matchCase` true, for the given document. |
| Syllabus.GoogleApis.DriveShareWithDomain | utils_taller.py:211-215 | Records one permission giving the role `writer` to the domain `datarebels.mx`. |
| Syllabus.FillTemplate | utils_taller.py:207-208 | The loop appends exactly the replace plan of the dictionary: one request per entry, in insertion order. Nothing else changes. |
| Syllabus.CrearDocumento | utils_taller.py:186-217 | Copies the template as `"Syllabus - " + nombre` and fills it. Then it shares it and returns the copy's edit link. The log grows by exactly those fourteen Drive and Docs calls. |
| Syllabus.GenerarSyllabusCompleto | utils_taller.py:129-217 | If a Gemini call fails, its error is raised and no Drive or Docs call is made. Otherwise the log grows by the fourteen Drive and Docs calls, and the result is the edit link of the copy. |

## Left out

- The credentials written to a temporary file and the construction of the Drive and Docs service handles (utils_taller.py:15-27) are left out. The services are a class that records calls, and Drive's choice of a copy id is a field.
- The prompt texts (utils_taller.py:67-107, 153-169) are free text for the model, so they are left out. The model's replies are parameters.
- From `call_gemini`, the POST, the API key, the timeout and the JSON decoding are left out. The first candidate's text is a field of the reply. A reply whose JSON lacks that field (a `KeyError`/`IndexError` in Python) is not modelled.
- `@st.cache_data` memoisation is left out, because it is a framework feature.
- Gemini calls are not recorded: their replies are inputs, so the model shows that a failed `pedir_seccion` ends the run with its error, but not that the later requests are never sent (utils_taller.py:172-183). Only Drive and Docs calls are logged.
- Exceptions raised by Drive or Docs are left out. Every call is taken to succeed.
- The `fields="id"` argument of the permission call is left out, because it affects only the shape of the reply.
- The effect of `replaceAllText` on the document is left out. Only the requests are modelled, in order. Whether the order of replacement matters depends on the template and on whether a value contains a later placeholder, and the document text is not part of this model.
- TagExtraction.IsTagName accepts every tag free of `[` and `]`, which is wider than the upper-case-and-underscore tags the source uses. The tag is placed into the pattern as literal text. That is exact for the ten fixed tags, which contain no regular-expression metacharacters. It is not exact for arbitrary tags, which the source never passes.
- Unicode: strings are sequences of Unicode scalar values. Python strings may also hold lone surrogates, and these are not modelled.
- app_taller.py is Streamlit UI and is not part of this model. It also imports `generar_componentes_taller`, `crear_syllabus_en_docs` and `crear_outline_en_sheets`, which utils_taller.py does not define, so the outline-to-Sheets feature has no code to model.

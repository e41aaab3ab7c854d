/**
 * `generar_syllabus_completo`: three refined sections from the model, a copy
 * of the Docs template, one `replaceAllText` request per placeholder, an
 * editor permission for the organisation's domain, and the edit link.
 *
 * Drive and Docs are modelled by the calls made to them, recorded in order;
 * the model's three replies are inputs.
 */
module Syllabus {
  import opened Wrappers
  import opened PyStr
  import opened Gemini

  /** The Docs template that holds the placeholders. */
  const TemplateId: string := "1I2jMQ1IjmG6_22dC7u6LYQfQzlND4WIvEusd756LFuo"

  /** The year written into every syllabus. */
  const Anio: nat := 2025

  /** The domain whose members get editor access to the new document. */
  const PermissionDomain: string := "datarebels.mx"

  /** Where a Docs edit link starts and ends around the document id. */
  const UrlPrefix: string := "https://docs.google.com/document/d/"
  const UrlSuffix: string := "/edit"

  /** The arguments of `generar_syllabus_completo`. */
  datatype SyllabusArgs = SyllabusArgs(
    nombre: string, nivel: string, objetivosMejorados: string, publico: string,
    siguiente: string, perfilIngreso: string, perfilEgreso: string, outline: string,
    t1: string, d1: string, t2: string, d2: string, t3: string, d3: string)

  /** The three sections `pedir_seccion` asks the model for, in the order it asks. */
  datatype Refined = Refined(generalidades: string, ingresoRefinado: string, detalles: string)

  /** The model's replies to those three requests. */
  datatype RefineReplies = RefineReplies(generalidades: HttpReply, ingresoRefinado: HttpReply, detalles: HttpReply)

  /** One Docs `replaceAllText` request: every occurrence of `containsText` becomes `replaceText`. */
  datatype Request = ReplaceAllText(documentId: string, containsText: string, matchCase: bool, replaceText: string)

  /** A call made to Drive or Docs. */
  datatype Call =
    | CopyFile(fileId: string, name: string)
    | BatchUpdate(request: Request)
    | CreatePermission(fileId: string, kind: string, role: string, domain: string)

  /** The digit character for d. */
  function DigitChar(d: nat): (c: char)
    requires d < 10
    ensures '0' <= c <= '9'
  {
    "0123456789"[d]
  }

  /** `str(n)` for a natural number. */
  function DecimalString(n: nat): (r: string)
    ensures |r| > 0
    decreases n
  {
    if n < 10 then [DigitChar(n)] else DecimalString(n / 10) + [DigitChar(n % 10)]
  }

  /** `str(anio)` is "2025". */
  lemma AnioText()
    ensures DecimalString(Anio) == "2025"
  {
    assert DecimalString(2) == "2";
    assert DecimalString(20) == "20";
    assert DecimalString(202) == "202";
  }

  /**
   * `pedir_seccion`: the reply's text stripped once more, or the call's error.
   * The second strip changes nothing, since `call_gemini` already stripped.
   */
  function PedirSeccion(reply: HttpReply): (r: Result<string, GeminiError>)
    ensures r == CallGemini(reply)
  {
    match CallGemini(reply)
    case Failure(e) => Failure(e)
    case Success(texto) => Success(Strip(texto))
  }

  /**
   * The three refined sections, asked for in order; the first failed call ends
   * the run. The run succeeds exactly when all three calls return status 200,
   * and then holds their stripped texts; otherwise it raises the error of the
   * first call that failed.
   */
  function RefineAll(replies: RefineReplies): (r: Result<Refined, GeminiError>)
    ensures r.Success? <==>
      replies.generalidades.status == 200 && replies.ingresoRefinado.status == 200 && replies.detalles.status == 200
    ensures r.Success? ==> r.value == Refined(
      Strip(replies.generalidades.candidateText),
      Strip(replies.ingresoRefinado.candidateText),
      Strip(replies.detalles.candidateText))
    ensures r.Failure? ==>
      r.error == (if replies.generalidades.status != 200 then GeminiError(replies.generalidades.status, replies.generalidades.body)
      else if replies.ingresoRefinado.status != 200 then GeminiError(replies.ingresoRefinado.status, replies.ingresoRefinado.body)
      else GeminiError(replies.detalles.status, replies.detalles.body))
  {
    match PedirSeccion(replies.generalidades)
    case Failure(e) => Failure(e)
    case Success(g) =>
      match PedirSeccion(replies.ingresoRefinado)
      case Failure(e) => Failure(e)
      case Success(p) =>
        match PedirSeccion(replies.detalles)
        case Failure(e) => Failure(e)
        case Success(d) => Success(Refined(g, p, d))
  }

  /** The keys of the `mapping` dictionary, in insertion order. */
  const Placeholders: seq<string> := [
    "{{nombre_del_curso}}",
    "{{anio}}",
    "{{generalidades_del_programa}}",
    "{{perfil_ingreso}}",
    "{{perfil_egreso}}",
    "{{detalles_plan_estudios}}",
    "{{titulo_primer_objetivo_secundario}}",
    "{{descripcion_primer_objetivo_secundario}}",
    "{{titulo_segundo_objetivo_secundario}}",
    "{{descripcion_segundo_objetivo_secundario}}",
    "{{titulo_tercer_objetivo_secundario}}",
    "{{descripcion_tercer_objetivo_secundario}}"
  ]

  /** The values of the `mapping` dictionary, at the index of their keys. */
  function Values(args: SyllabusArgs, refined: Refined): (v: seq<string>)
    ensures |v| == |Placeholders|
  {
    [
      args.nombre,
      DecimalString(Anio),
      refined.generalidades,
      refined.ingresoRefinado,
      args.perfilEgreso,
      refined.detalles,
      args.t1,
      args.d1,
      args.t2,
      args.d2,
      args.t3,
      args.d3
    ]
  }

  /**
   * The `mapping` dictionary: each placeholder with its value, in insertion
   * order. Its twelve tokens are placeholders, pairwise distinct, so it is a
   * dictionary with twelve keys.
   */
  function Mapping(args: SyllabusArgs, refined: Refined): (m: seq<(string, string)>)
    ensures |m| == 12
    ensures forall i :: 0 <= i < 12 ==> IsPlaceholder(m[i].0)
    ensures DistinctTokens(m)
  {
    PlaceholderKeys();
    seq(|Placeholders|, i requires 0 <= i < |Placeholders| => (Placeholders[i], Values(args, refined)[i]))
  }

  /** A placeholder token: "{{", a name without braces, "}}". */
  predicate IsPlaceholder(t: string) {
    && |t| >= 4
    && t[0] == '{' && t[1] == '{' && t[|t| - 2] == '}' && t[|t| - 1] == '}'
    && forall k :: 2 <= k < |t| - 2 ==> t[k] != '{' && t[k] != '}'
  }

  /** No placeholder token occurs inside another one, except as the whole of it. */
  lemma PlaceholderInsidePlaceholder(t: string, u: string, j: int)
    requires IsPlaceholder(t) && IsPlaceholder(u)
    ensures OccursAt(t, u, j) ==> j == 0 && t == u
  {
    if OccursAt(t, u, j) {
      assert u[j + 1] == t[1] == '{';
      assert j == 0;
      assert u[|t| - 2] == t[|t| - 2] == '}';
      assert |t| == |u|;
      assert t == u[0..|u|] == u;
    }
  }

  /** The dictionary lookup `mapping[token]`: the value of the first pair with that token. */
  function Get(m: seq<(string, string)>, token: string): Option<string>
    decreases |m|
  {
    if m == [] then None else if m[0].0 == token then Some(m[0].1) else Get(m[1..], token)
  }

  /** A token-to-value list whose tokens are pairwise distinct, as the keys of a dictionary are. */
  predicate DistinctTokens(m: seq<(string, string)>) {
    forall i, j :: 0 <= i < j < |m| ==> m[i].0 != m[j].0
  }

  /** With distinct tokens, looking a token up finds the value stored beside it. */
  lemma {:induction false} GetStored(m: seq<(string, string)>, i: nat)
    requires DistinctTokens(m) && i < |m|
    ensures Get(m, m[i].0) == Some(m[i].1)
    decreases i
  {
    if i > 0 {
      assert m[0].0 != m[i].0;
      assert DistinctTokens(m[1..]) by {
        forall a, b | 0 <= a < b < |m| - 1 ensures m[1..][a].0 != m[1..][b].0 {
          assert m[1..][a] == m[a + 1] && m[1..][b] == m[b + 1];
        }
      }
      GetStored(m[1..], i - 1);
      assert m[1..][i - 1] == m[i];
    }
  }

  /** The twelve keys of `mapping` are placeholder tokens, pairwise distinct. */
  lemma PlaceholderKeys()
    ensures |Placeholders| == 12
    ensures forall i :: 0 <= i < 12 ==> IsPlaceholder(Placeholders[i])
    ensures forall i, j :: 0 <= i < j < 12 ==> Placeholders[i] != Placeholders[j]
  {
    PlaceholdersOfCourse();
    PlaceholdersOfFirstObjective();
    PlaceholdersOfSecondObjective();
    PlaceholdersOfThirdObjective();
    PlaceholdersDistinct();
  }

  /** Two keys of `mapping` differ in length, or else at the word after "titulo_" or "descripcion_". */
  lemma PlaceholdersDistinct()
    ensures forall i, j :: 0 <= i < j < |Placeholders| ==> Placeholders[i] != Placeholders[j]
  {
    var t := Placeholders;
    assert |t[0]| == 20 && |t[1]| == 8 && |t[2]| == 30 && |t[3]| == 18;
    assert |t[4]| == 17 && |t[5]| == 26 && |t[6]| == 37 && |t[7]| == 42;
    assert |t[8]| == 38 && |t[9]| == 43 && |t[10]| == 37 && |t[11]| == 42;
    assert t[6][9] != t[10][9];
    assert t[7][14] != t[11][14];
  }

  /** The tokens for the course name, the year and the refined sections have the placeholder form. */
  lemma PlaceholdersOfCourse()
    ensures IsPlaceholder("{{nombre_del_curso}}")
    ensures IsPlaceholder("{{anio}}")
    ensures IsPlaceholder("{{generalidades_del_programa}}")
    ensures IsPlaceholder("{{perfil_ingreso}}")
    ensures IsPlaceholder("{{perfil_egreso}}")
    ensures IsPlaceholder("{{detalles_plan_estudios}}")
  {
  }

  /** The tokens for the first secondary objective have the placeholder form. */
  lemma PlaceholdersOfFirstObjective()
    ensures IsPlaceholder("{{titulo_primer_objetivo_secundario}}")
    ensures IsPlaceholder("{{descripcion_primer_objetivo_secundario}}")
  {
  }

  /** The tokens for the second secondary objective have the placeholder form. */
  lemma PlaceholdersOfSecondObjective()
    ensures IsPlaceholder("{{titulo_segundo_objetivo_secundario}}")
    ensures IsPlaceholder("{{descripcion_segundo_objetivo_secundario}}")
  {
  }

  /** The tokens for the third secondary objective have the placeholder form. */
  lemma PlaceholdersOfThirdObjective()
    ensures IsPlaceholder("{{titulo_tercer_objetivo_secundario}}")
    ensures IsPlaceholder("{{descripcion_tercer_objetivo_secundario}}")
  {
  }

  /** No key of `mapping` occurs inside another, so no replacement can cut into another placeholder. */
  lemma PlaceholdersDoNotOverlap(i: nat, j: nat, p: int)
    requires i < 12 && j < 12 && i != j
    ensures !OccursAt(Placeholders[i], Placeholders[j], p)
  {
    PlaceholderKeys();
    PlaceholderInsidePlaceholder(Placeholders[i], Placeholders[j], p);
  }

  /** What `mapping` binds the course name, the year and the three refined sections to. */
  lemma MappingBindings(args: SyllabusArgs, refined: Refined)
    ensures Get(Mapping(args, refined), "{{nombre_del_curso}}") == Some(args.nombre)
    ensures Get(Mapping(args, refined), "{{anio}}") == Some("2025")
    ensures Get(Mapping(args, refined), "{{generalidades_del_programa}}") == Some(refined.generalidades)
    ensures Get(Mapping(args, refined), "{{perfil_ingreso}}") == Some(refined.ingresoRefinado)
    ensures Get(Mapping(args, refined), "{{detalles_plan_estudios}}") == Some(refined.detalles)
  {
    AnioText();
    MappingLookup(args, refined, 0);
    MappingLookup(args, refined, 1);
    MappingLookup(args, refined, 2);
    MappingLookup(args, refined, 3);
    MappingLookup(args, refined, 5);
  }

  /** Looking up a key of `mapping` gives the value at the same index. */
  lemma MappingLookup(args: SyllabusArgs, refined: Refined, i: nat)
    requires i < |Placeholders|
    ensures Get(Mapping(args, refined), Placeholders[i]) == Some(Values(args, refined)[i])
  {
    GetStored(Mapping(args, refined), i);
  }

  /**
   * The dictionary depends on the arguments only through the course name, the
   * exit profile and the three secondary objectives. The level, the improved
   * objectives, the outline and the original entry profile reach the document
   * only through the refinement prompt, and so through the refined sections;
   * the audience and the next course are never used at all.
   */
  lemma MappingUsesOnly(a: SyllabusArgs, b: SyllabusArgs, refined: Refined)
    requires a.nombre == b.nombre && a.perfilEgreso == b.perfilEgreso
    requires a.t1 == b.t1 && a.d1 == b.d1 && a.t2 == b.t2 && a.d2 == b.d2 && a.t3 == b.t3 && a.d3 == b.d3
    ensures Mapping(a, refined) == Mapping(b, refined)
  {
    assert Values(a, refined) == Values(b, refined);
  }

  /** The Docs requests the replace loop sends, one per pair, in the order of the pairs. */
  function ReplacePlan(docId: string, m: seq<(string, string)>): seq<Call>
    decreases |m|
  {
    if m == [] then []
    else ReplacePlan(docId, m[..|m| - 1]) + [BatchUpdate(ReplaceAllText(docId, m[|m| - 1].0, true, m[|m| - 1].1))]
  }

  /** Request k of the plan replaces, case-sensitively in docId, token k by value k. */
  lemma {:induction false} ReplacePlanAt(docId: string, m: seq<(string, string)>)
    ensures |ReplacePlan(docId, m)| == |m|
    ensures forall k :: 0 <= k < |m| ==>
      ReplacePlan(docId, m)[k] == BatchUpdate(ReplaceAllText(docId, m[k].0, true, m[k].1))
    decreases |m|
  {
    if m != [] {
      var init := m[..|m| - 1];
      ReplacePlanAt(docId, init);
      assert forall k :: 0 <= k < |init| ==> init[k] == m[k];
    }
  }

  /**
   * Every placeholder of `mapping` is asked for exactly once, in the document
   * just copied, matching case, and with the value the dictionary holds for it.
   */
  lemma PlanReplacesEachPlaceholderOnce(docId: string, args: SyllabusArgs, refined: Refined)
    ensures |ReplacePlan(docId, Mapping(args, refined))| == 12
    ensures forall k :: 0 <= k < 12 ==>
      var c := ReplacePlan(docId, Mapping(args, refined))[k];
      c.BatchUpdate? && c.request.documentId == docId && c.request.matchCase
      && Get(Mapping(args, refined), c.request.containsText) == Some(c.request.replaceText)
    ensures forall k, l :: 0 <= k < l < 12 ==>
      ReplacePlan(docId, Mapping(args, refined))[k].request.containsText
        != ReplacePlan(docId, Mapping(args, refined))[l].request.containsText
  {
    var m := Mapping(args, refined);
    ReplacePlanAt(docId, m);
    forall k | 0 <= k < 12 ensures Get(m, m[k].0) == Some(m[k].1) {
      GetStored(m, k);
    }
  }

  /** The link to edit a Docs document; the document id is read back from it. */
  function EditUrl(docId: string): (url: string)
    ensures DocIdOfUrl(url) == Some(docId)
  {
    var url := UrlPrefix + docId + UrlSuffix;
    assert url[..|UrlPrefix|] == UrlPrefix;
    assert url[|url| - |UrlSuffix|..] == UrlSuffix;
    assert url[|UrlPrefix|..|url| - |UrlSuffix|] == docId;
    url
  }

  /** The document id an edit link names, if it has that form. */
  function DocIdOfUrl(url: string): Option<string> {
    if |url| >= |UrlPrefix| + |UrlSuffix| && url[..|UrlPrefix|] == UrlPrefix && url[|url| - |UrlSuffix|..] == UrlSuffix
    then Some(url[|UrlPrefix|..|url| - |UrlSuffix|])
    else None
  }

  /** Any link that names an id is the link built for that id. */
  lemma UrlParsedRebuilds(url: string)
    ensures DocIdOfUrl(url).Some? ==> EditUrl(DocIdOfUrl(url).value) == url
  {
    if DocIdOfUrl(url).Some? {
      var d := url[|UrlPrefix|..|url| - |UrlSuffix|];
      assert url == url[..|UrlPrefix|] + d + url[|url| - |UrlSuffix|..];
    }
  }

  /** Distinct documents get distinct links. */
  lemma EditUrlInjective(a: string, b: string)
    ensures EditUrl(a) == EditUrl(b) ==> a == b
  {
  }

  /** The Drive and Docs calls made for one syllabus in document docId. */
  function DocumentCalls(docId: string, args: SyllabusArgs, refined: Refined): seq<Call> {
    [CopyFile(TemplateId, "Syllabus - " + args.nombre)]
    + ReplacePlan(docId, Mapping(args, refined))
    + [CreatePermission(docId, "domain", "writer", PermissionDomain)]
  }

  /**
   * One syllabus costs fourteen Drive and Docs calls: the template is copied
   * first, the domain gets editor access last, and every call in between edits
   * the copy.
   */
  lemma DocumentCallsShape(docId: string, args: SyllabusArgs, refined: Refined)
    ensures |DocumentCalls(docId, args, refined)| == 14
    ensures DocumentCalls(docId, args, refined)[0] == CopyFile(TemplateId, "Syllabus - " + args.nombre)
    ensures DocumentCalls(docId, args, refined)[13] == CreatePermission(docId, "domain", "writer", PermissionDomain)
    ensures forall k :: 1 <= k < 13 ==>
      DocumentCalls(docId, args, refined)[k].BatchUpdate? && DocumentCalls(docId, args, refined)[k].request.documentId == docId
  {
    var m := Mapping(args, refined);
    ReplacePlanAt(docId, m);
    var calls := DocumentCalls(docId, args, refined);
    assert forall k :: 1 <= k < 13 ==> calls[k] == ReplacePlan(docId, m)[k - 1];
  }

  /** The Drive and Docs services, seen through the calls made to them. */
  class GoogleApis {
    /** Every call made so far, oldest first. */
    var calls: seq<Call>
    /** The id Drive gives the copy it makes. */
    var copyId: string

    constructor (copyId: string)
      ensures calls == [] && this.copyId == copyId
    {
      calls := [];
      this.copyId := copyId;
    }

    /** `files().copy`: copies fileId under a new name and returns the copy's id. */
    method DriveCopy(fileId: string, name: string) returns (id: string)
      modifies this
      ensures calls == old(calls) + [CopyFile(fileId, name)]
      ensures copyId == old(copyId) && id == copyId
    {
      calls := calls + [CopyFile(fileId, name)];
      id := copyId;
    }

    /** `_replace`: one `batchUpdate` holding one case-sensitive `replaceAllText`. */
    method DocsReplace(docId: string, placeholder: string, newText: string)
      modifies this
      ensures calls == old(calls) + [BatchUpdate(ReplaceAllText(docId, placeholder, true, newText))]
      ensures copyId == old(copyId)
    {
      calls := calls + [BatchUpdate(ReplaceAllText(docId, placeholder, true, newText))];
    }

    /** `permissions().create`: editor access for everyone in the organisation's domain. */
    method DriveShareWithDomain(fileId: string)
      modifies this
      ensures calls == old(calls) + [CreatePermission(fileId, "domain", "writer", PermissionDomain)]
      ensures copyId == old(copyId)
    {
      calls := calls + [CreatePermission(fileId, "domain", "writer", PermissionDomain)];
    }
  }

  /** The replace loop: one `_replace` per pair of `mapping`, in order. */
  method FillTemplate(svc: GoogleApis, docId: string, m: seq<(string, string)>)
    modifies svc
    ensures svc.calls == old(svc.calls) + ReplacePlan(docId, m)
    ensures svc.copyId == old(svc.copyId)
  {
    var i := 0;
    while i < |m|
      invariant 0 <= i <= |m|
      invariant svc.calls == old(svc.calls) + ReplacePlan(docId, m[..i])
      invariant svc.copyId == old(svc.copyId)
    {
      var (placeholder, value) := m[i];
      svc.DocsReplace(docId, placeholder, value);
      assert m[..i + 1][..i] == m[..i];
      i := i + 1;
    }
    assert m[..|m|] == m;
  }

  /** The second half of `generar_syllabus_completo`: copy the template, fill it, share it, link to it. */
  method CrearDocumento(svc: GoogleApis, args: SyllabusArgs, refined: Refined) returns (url: string)
    modifies svc
    ensures svc.copyId == old(svc.copyId)
    ensures url == EditUrl(old(svc.copyId))
    ensures svc.calls == old(svc.calls) + DocumentCalls(old(svc.copyId), args, refined)
  {
    var docId := svc.DriveCopy(TemplateId, "Syllabus - " + args.nombre);
    FillTemplate(svc, docId, Mapping(args, refined));
    svc.DriveShareWithDomain(docId);
    url := EditUrl(docId);
  }

  /**
   * `generar_syllabus_completo`: if any of the three model calls fails, its
   * error is raised before Drive or Docs is touched; otherwise the template is
   * copied, filled, shared with the domain, and the copy's edit link returned.
   */
  method GenerarSyllabusCompleto(svc: GoogleApis, args: SyllabusArgs, replies: RefineReplies)
    returns (res: Result<string, GeminiError>)
    modifies svc
    ensures svc.copyId == old(svc.copyId)
    ensures RefineAll(replies).Failure? ==>
      res == Failure(RefineAll(replies).error) && svc.calls == old(svc.calls)
    ensures RefineAll(replies).Success? ==>
      res == Success(EditUrl(old(svc.copyId)))
      && svc.calls == old(svc.calls) + DocumentCalls(old(svc.copyId), args, RefineAll(replies).value)
  {
    var refined := RefineAll(replies);
    if refined.Failure? {
      return Failure(refined.error);
    }
    var url := CrearDocumento(svc, args, refined.value);
    res := Success(url);
  }
}

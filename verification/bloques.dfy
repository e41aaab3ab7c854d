/**
 * `generar_bloques`: one call to the model, then the ten sections read out
 * of its reply into a dictionary with a fixed set of keys.
 */
module Bloques {
  import opened Wrappers
  import opened PyStr
  import opened TagExtraction
  import opened TaggedResponse
  import opened Gemini

  /** The dictionary keys, in the order the source lists them. */
  const BlockKeys: seq<string> :=
    ["perfil_ingreso", "objetivos", "perfil_egreso", "outline", "t1", "d1", "t2", "d2", "t3", "d3"]

  /** The tag each key is read from, at the same index. */
  const BlockTags: seq<string> :=
    ["PERFIL_INGRESO", "OBJETIVOS", "PERFIL_EGRESO", "OUTLINE",
     "TITULO_PRIMER_OBJETIVO_SECUNDARIO", "DESCRIPCION_PRIMER_OBJETIVO_SECUNDARIO",
     "TITULO_SEGUNDO_OBJETIVO_SECUNDARIO", "DESCRIPCION_SEGUNDO_OBJETIVO_SECUNDARIO",
     "TITULO_TERCER_OBJETIVO_SECUNDARIO", "DESCRIPCION_TERCER_OBJETIVO_SECUNDARIO"]

  /** The dictionary literal of `generar_bloques`, over its local extractor `_extr`. */
  function BloquesWith(extr: string -> string): (r: map<string, string>)
    ensures r.Keys == {"perfil_ingreso", "objetivos", "perfil_egreso", "outline",
                       "t1", "d1", "t2", "d2", "t3", "d3"}
  {
    map[
      "perfil_ingreso" := extr("PERFIL_INGRESO"),
      "objetivos" := extr("OBJETIVOS"),
      "perfil_egreso" := extr("PERFIL_EGRESO"),
      "outline" := extr("OUTLINE"),
      "t1" := extr("TITULO_PRIMER_OBJETIVO_SECUNDARIO"),
      "d1" := extr("DESCRIPCION_PRIMER_OBJETIVO_SECUNDARIO"),
      "t2" := extr("TITULO_SEGUNDO_OBJETIVO_SECUNDARIO"),
      "d2" := extr("DESCRIPCION_SEGUNDO_OBJETIVO_SECUNDARIO"),
      "t3" := extr("TITULO_TERCER_OBJETIVO_SECUNDARIO"),
      "d3" := extr("DESCRIPCION_TERCER_OBJETIVO_SECUNDARIO")
    ]
  }

  /**
   * The dictionary `generar_bloques` builds from the model's reply text: every
   * key is present, whatever the reply, and is bound to the extraction of its
   * own tag.
   */
  function Bloques(texto: string): (r: map<string, string>)
    ensures r.Keys == {"perfil_ingreso", "objetivos", "perfil_egreso", "outline",
                       "t1", "d1", "t2", "d2", "t3", "d3"}
    ensures forall i :: 0 <= i < |BlockKeys| ==>
      BlockKeys[i] in r && r[BlockKeys[i]] == Extract(texto, BlockTags[i])
  {
    BloquesWithBindsEachTag(tag => Extract(texto, tag));
    BloquesWith(tag => Extract(texto, tag))
  }

  /** `generar_bloques` with the model's HTTP reply as input; a failed call propagates its error. */
  function GenerarBloques(reply: HttpReply): (r: Result<map<string, string>, GeminiError>)
    ensures r.Success? <==> reply.status == 200
    ensures r.Failure? ==> r.error == GeminiError(reply.status, reply.body)
    ensures r.Success? ==> r.value == Bloques(Strip(reply.candidateText))
  {
    match CallGemini(reply)
    case Failure(e) => Failure(e)
    case Success(texto) => Success(Bloques(texto))
  }

  /** The ten keys are distinct, and so are the ten tags. */
  lemma KeysAndTagsDistinct()
    ensures |BlockKeys| == |BlockTags| == 10
    ensures forall i, j :: 0 <= i < j < 10 ==> BlockKeys[i] != BlockKeys[j]
    ensures forall i, j :: 0 <= i < j < 10 ==> BlockTags[i] != BlockTags[j]
  {
  }

  /** The profile and outline tags are tag names. */
  lemma ProfileTagsAreTagNames()
    ensures IsTagName("PERFIL_INGRESO") && IsTagName("OBJETIVOS")
    ensures IsTagName("PERFIL_EGRESO") && IsTagName("OUTLINE")
  {
  }

  /** The tags of the first secondary objective are tag names. */
  lemma FirstObjectiveTagsAreTagNames()
    ensures IsTagName("TITULO_PRIMER_OBJETIVO_SECUNDARIO")
    ensures IsTagName("DESCRIPCION_PRIMER_OBJETIVO_SECUNDARIO")
  {
  }

  /** The tags of the second secondary objective are tag names. */
  lemma SecondObjectiveTagsAreTagNames()
    ensures IsTagName("TITULO_SEGUNDO_OBJETIVO_SECUNDARIO")
    ensures IsTagName("DESCRIPCION_SEGUNDO_OBJETIVO_SECUNDARIO")
  {
  }

  /** The tags of the third secondary objective are tag names. */
  lemma ThirdObjectiveTagsAreTagNames()
    ensures IsTagName("TITULO_TERCER_OBJETIVO_SECUNDARIO")
    ensures IsTagName("DESCRIPCION_TERCER_OBJETIVO_SECUNDARIO")
  {
  }

  /** Every tag is a proper tag name, so the regular expression matches it literally. */
  lemma BlockTagsAreTagNames()
    ensures forall i :: 0 <= i < |BlockTags| ==> IsTagName(BlockTags[i])
  {
    ProfileTagsAreTagNames();
    FirstObjectiveTagsAreTagNames();
    SecondObjectiveTagsAreTagNames();
    ThirdObjectiveTagsAreTagNames();
  }

  /** The dictionary binds each key to what the extractor gives for the tag at the same index. */
  lemma BloquesWithBindsEachTag(extr: string -> string)
    ensures forall i :: 0 <= i < |BlockKeys| ==>
      BlockKeys[i] in BloquesWith(extr) && BloquesWith(extr)[BlockKeys[i]] == extr(BlockTags[i])
  {
    BloquesWithBindsProfiles(extr);
    BloquesWithBindsFirstObjective(extr);
    BloquesWithBindsSecondObjective(extr);
    BloquesWithBindsThirdObjective(extr);
    assert BlockKeys[0] == "perfil_ingreso" && BlockTags[0] == "PERFIL_INGRESO";
    assert BlockKeys[1] == "objetivos" && BlockTags[1] == "OBJETIVOS";
    assert BlockKeys[2] == "perfil_egreso" && BlockTags[2] == "PERFIL_EGRESO";
    assert BlockKeys[3] == "outline" && BlockTags[3] == "OUTLINE";
    assert BlockKeys[4] == "t1" && BlockTags[4] == "TITULO_PRIMER_OBJETIVO_SECUNDARIO";
    assert BlockKeys[5] == "d1" && BlockTags[5] == "DESCRIPCION_PRIMER_OBJETIVO_SECUNDARIO";
    assert BlockKeys[6] == "t2" && BlockTags[6] == "TITULO_SEGUNDO_OBJETIVO_SECUNDARIO";
    assert BlockKeys[7] == "d2" && BlockTags[7] == "DESCRIPCION_SEGUNDO_OBJETIVO_SECUNDARIO";
    assert BlockKeys[8] == "t3" && BlockTags[8] == "TITULO_TERCER_OBJETIVO_SECUNDARIO";
    assert BlockKeys[9] == "d3" && BlockTags[9] == "DESCRIPCION_TERCER_OBJETIVO_SECUNDARIO";
  }

  /** The profile, objectives and outline keys are bound to the extraction of their tags. */
  lemma BloquesWithBindsProfiles(extr: string -> string)
    ensures "perfil_ingreso" in BloquesWith(extr) && BloquesWith(extr)["perfil_ingreso"] == extr("PERFIL_INGRESO")
    ensures "objetivos" in BloquesWith(extr) && BloquesWith(extr)["objetivos"] == extr("OBJETIVOS")
    ensures "perfil_egreso" in BloquesWith(extr) && BloquesWith(extr)["perfil_egreso"] == extr("PERFIL_EGRESO")
    ensures "outline" in BloquesWith(extr) && BloquesWith(extr)["outline"] == extr("OUTLINE")
  {
  }

  /** The keys of the first secondary objective are bound to the extraction of their tags. */
  lemma BloquesWithBindsFirstObjective(extr: string -> string)
    ensures "t1" in BloquesWith(extr) && BloquesWith(extr)["t1"] == extr("TITULO_PRIMER_OBJETIVO_SECUNDARIO")
    ensures "d1" in BloquesWith(extr) && BloquesWith(extr)["d1"] == extr("DESCRIPCION_PRIMER_OBJETIVO_SECUNDARIO")
  {
  }

  /** The keys of the second secondary objective are bound to the extraction of their tags. */
  lemma BloquesWithBindsSecondObjective(extr: string -> string)
    ensures "t2" in BloquesWith(extr) && BloquesWith(extr)["t2"] == extr("TITULO_SEGUNDO_OBJETIVO_SECUNDARIO")
    ensures "d2" in BloquesWith(extr) && BloquesWith(extr)["d2"] == extr("DESCRIPCION_SEGUNDO_OBJETIVO_SECUNDARIO")
  {
  }

  /** The keys of the third secondary objective are bound to the extraction of their tags. */
  lemma BloquesWithBindsThirdObjective(extr: string -> string)
    ensures "t3" in BloquesWith(extr) && BloquesWith(extr)["t3"] == extr("TITULO_TERCER_OBJETIVO_SECUNDARIO")
    ensures "d3" in BloquesWith(extr) && BloquesWith(extr)["d3"] == extr("DESCRIPCION_TERCER_OBJETIVO_SECUNDARIO")
  {
  }

  /**
   * For a well-formed reply, in any order, with any sections missing or
   * repeated, each key holds the stripped content of the first section with
   * its tag, or "" when the reply has no such section.
   */
  lemma BloquesOfReply(secs: seq<Section>)
    requires WellFormed(secs)
    ensures forall i :: 0 <= i < |BlockKeys| ==>
      Bloques(Render(secs))[BlockKeys[i]] == Lookup(secs, BlockTags[i])
  {
    BlockTagsAreTagNames();
    forall i | 0 <= i < |BlockKeys|
      ensures Bloques(Render(secs))[BlockKeys[i]] == Lookup(secs, BlockTags[i])
    {
      ExtractRendered(secs, BlockTags[i]);
    }
  }

  /**
   * The whole of `generar_bloques` on a successful call whose text, once
   * stripped, is a well-formed reply: every key is there and holds what the
   * reply has under its tag.
   */
  lemma GenerarBloquesOfReply(reply: HttpReply, secs: seq<Section>)
    requires reply.status == 200
    requires WellFormed(secs) && Strip(reply.candidateText) == Render(secs)
    ensures GenerarBloques(reply).Success?
    ensures forall i :: 0 <= i < |BlockKeys| ==>
      BlockKeys[i] in GenerarBloques(reply).value &&
      GenerarBloques(reply).value[BlockKeys[i]] == Lookup(secs, BlockTags[i])
  {
    BloquesOfReply(secs);
  }
}

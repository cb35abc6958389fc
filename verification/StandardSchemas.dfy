/**
 The four kinds of file the importer knows (internal/ingestion/schema.go). Their templates read back as
 the schemas they were made from.
 */
module StandardSchemas {
  import opened Headers
  import opened Schema

  const READING_AT :=
    Field("reading_at", true,
          ["reading_at", "leitura_em", "data_leitura", "data_hora", "data", "date", "datetime", "timestamp",
           "dt_leitura", "periodo", "mes_referencia", "referencia"])

  const TRANSFORMER_READINGS: seq<Field> := [
    Field("transformer", true,
          ["transformer_id", "transformer_code", "transformer", "trafo_id", "trafo", "codigo_trafo", "cod_trafo",
           "transformador", "codigo_transformador", "id_trafo"]),
    READING_AT,
    Field("energy_kwh", true,
          ["energy_kwh", "energia_kwh", "energia_injetada_kwh", "energia_injetada", "energia", "kwh", "energy",
           "consumo_kwh"]),
    Field("demand_kw", false,
          ["demand_kw", "demanda_kw", "demanda", "demand", "kw"]),
    Field("power_factor", false,
          ["power_factor", "fator_potencia", "fator_de_potencia", "fp", "pf", "cos_phi"])]

  const UC_READINGS: seq<Field> := [
    Field("uc", true,
          ["uc_id", "uc_code", "uc", "codigo_uc", "cod_uc", "unidade_consumidora", "instalacao",
           "numero_instalacao", "codigo_unidade"]),
    READING_AT,
    Field("consumption_kwh", true,
          ["consumption_kwh", "consumo_kwh", "consumo", "consumption", "kwh", "energia_kwh", "energy_kwh",
           "energia_faturada_kwh"])]

  const TRANSFORMERS: seq<Field> := [
    Field("code", true,
          ["code", "codigo", "transformer_code", "codigo_trafo", "cod_trafo", "trafo", "transformador",
           "codigo_transformador"]),
    Field("power_kva", true,
          ["power_kva", "potencia_kva", "potencia", "kva", "potencia_nominal", "potencia_nominal_kva"]),
    Field("primary_voltage_kv", false,
          ["primary_voltage_kv", "tensao_primaria_kv", "tensao_primaria", "vp_kv", "tensao_mt_kv"]),
    Field("secondary_voltage_v", false,
          ["secondary_voltage_v", "tensao_secundaria_v", "tensao_secundaria", "vs_v", "tensao_bt_v"]),
    Field("lat", false,
          ["lat", "latitude", "y"]),
    Field("lng", false,
          ["lng", "lon", "long", "longitude", "x"]),
    Field("core_loss_kw", false,
          ["core_loss_kw", "perda_nucleo_kw", "perda_nucleo", "p0", "p0_kw", "perda_vazio_kw",
           "perdas_em_vazio_kw"]),
    Field("winding_loss_kw", false,
          ["winding_loss_kw", "perda_enrolamento_kw", "perda_enrolamentos_kw", "perda_enrolamento", "pcc",
           "pcc_kw", "perda_carga_kw", "perdas_em_carga_kw"]),
    Field("loss_limit_pct", false,
          ["loss_limit_pct", "limite_perda_pct", "limite_perdas", "limite_perda", "limite", "limite_aneel"]),
    Field("substation", false,
          ["substation", "substation_code", "subestacao", "codigo_subestacao", "cod_subestacao", "se"])]

  const CONSUMING_UNITS: seq<Field> := [
    Field("uc_code", true,
          ["uc_code", "codigo_uc", "cod_uc", "uc", "unidade_consumidora", "instalacao", "numero_instalacao",
           "codigo"]),
    Field("transformer", true,
          ["transformer", "transformer_code", "transformer_id", "codigo_trafo", "cod_trafo", "trafo",
           "transformador"]),
    Field("name", false,
          ["name", "nome", "cliente", "titular", "consumidor"]),
    Field("class", false,
          ["class", "classe", "classe_consumo", "categoria"])]

  lemma CanonicalNames0()
    ensures Canonical("transformer")
    ensures Canonical("reading_at")
    ensures Canonical("energy_kwh")
  {
  }

  lemma CanonicalNames1()
    ensures Canonical("demand_kw")
    ensures Canonical("power_factor")
    ensures Canonical("uc")
  {
  }

  lemma CanonicalNames2()
    ensures Canonical("consumption_kwh")
    ensures Canonical("code")
    ensures Canonical("power_kva")
  {
  }

  lemma CanonicalNames3()
    ensures Canonical("primary_voltage_kv")
    ensures Canonical("secondary_voltage_v")
    ensures Canonical("lat")
  {
  }

  lemma CanonicalNames4()
    ensures Canonical("lng")
    ensures Canonical("core_loss_kw")
    ensures Canonical("winding_loss_kw")
  {
  }

  lemma CanonicalNames5()
    ensures Canonical("loss_limit_pct")
    ensures Canonical("substation")
    ensures Canonical("uc_code")
  {
  }

  lemma CanonicalNames6()
    ensures Canonical("name")
    ensures Canonical("class")
  {
  }

  ghost predicate CanonicalFields(fields: seq<Field>) {
    forall i :: 0 <= i < |fields| ==> Canonical(fields[i].name)
  }

  lemma TransformerReadingsReady()
    ensures TemplateReady(TRANSFORMER_READINGS)
  {
    hide Canonical;
    CanonicalNames0();
    CanonicalNames1();
    TransformerReadingsDiffer();
    assert CanonicalFields(TRANSFORMER_READINGS);
  }

  lemma TransformerReadingsDiffer()
    ensures forall i, j :: 0 <= i < j < |TRANSFORMER_READINGS| ==> TRANSFORMER_READINGS[i].name != TRANSFORMER_READINGS[j].name
  {
  }

  lemma UnitReadingsReady()
    ensures TemplateReady(UC_READINGS)
  {
    hide Canonical;
    CanonicalNames0();
    CanonicalNames1();
    CanonicalNames2();
    UnitReadingsDiffer();
    assert CanonicalFields(UC_READINGS);
  }

  lemma UnitReadingsDiffer()
    ensures forall i, j :: 0 <= i < j < |UC_READINGS| ==> UC_READINGS[i].name != UC_READINGS[j].name
  {
  }

  lemma TransformersReady()
    ensures TemplateReady(TRANSFORMERS)
  {
    hide Canonical;
    CanonicalNames2();
    CanonicalNames3();
    CanonicalNames4();
    CanonicalNames5();
    TransformersDiffer();
    assert CanonicalFields(TRANSFORMERS);
  }

  lemma TransformersDiffer()
    ensures forall i, j :: 0 <= i < j < |TRANSFORMERS| ==> TRANSFORMERS[i].name != TRANSFORMERS[j].name
  {
  }

  lemma ConsumingUnitsReady()
    ensures TemplateReady(CONSUMING_UNITS)
  {
    hide Canonical;
    CanonicalNames0();
    CanonicalNames5();
    CanonicalNames6();
    ConsumingUnitsDiffer();
    assert CanonicalFields(CONSUMING_UNITS);
  }

  lemma ConsumingUnitsDiffer()
    ensures forall i, j :: 0 <= i < j < |CONSUMING_UNITS| ==> CONSUMING_UNITS[i].name != CONSUMING_UNITS[j].name
  {
  }

  /** The field names of every kind of file are canonical and distinct. */
  lemma StandardSchemasAreReady(fields: seq<Field>)
    requires fields in [TRANSFORMER_READINGS, UC_READINGS, TRANSFORMERS, CONSUMING_UNITS]
    ensures TemplateReady(fields) && fields != []
  {
    TransformerReadingsReady();
    UnitReadingsReady();
    TransformersReady();
    ConsumingUnitsReady();
    hide TemplateReady;
  }

  /** So every template the server hands out reads back as its own schema. */
  lemma StandardTemplatesReadBack(fields: seq<Field>, examples: seq<seq<string>>, best: char)
    requires fields in [TRANSFORMER_READINGS, UC_READINGS, TRANSFORMERS, CONSUMING_UNITS]
    requires MostFrequent(HeaderLine(TemplateText(fields, examples)), best)
    ensures Identity(fields, Resolution(Cells(HeaderLine(TemplateText(fields, examples)), best), fields, map[], []))
  {
    hide TemplateReady, MostFrequent, Identity, Resolution, Cells, HeaderLine, TemplateText;
    StandardSchemasAreReady(fields);
    TemplateReadsBack(fields, examples, best);
  }
}

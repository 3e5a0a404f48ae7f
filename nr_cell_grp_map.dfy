// The NR cell-group template chosen for a radio-unit variant (cli/core/config/nr_cell_grp_map.py).

module NrCellGrpMap {
  import opened Wrappers

  const TemplateMap: map<string, string> := map[
    "AEQN_4_2" := "typeC", "AEQY_4_2" := "typeC",
    "AHQK_2_2" := "typeA", "AHQK_4_2" := "typeB", "AHQK_4_4" := "typeA",
    "APHA_4_2" := "typeA", "AQQA_4_2" := "typeC",
    "AZQG_2_2_0" := "typeA", "AZQG_2_2_4" := "typeD", "AZQG_4_2_0" := "typeA",
    "AZQG_4_2_2" := "typeB", "AZQG_4_4" := "typeA",
    "AZQS_2_2_0" := "typeA", "AZQS_2_2_4" := "typeD", "AZQS_4_2_0" := "typeA",
    "AZQS_4_2_2" := "typeB", "AZQS_4_4" := "typeA",
    "DEFAULT" := "typeA"]

  const Templates: set<string> := {"typeA", "typeB", "typeC", "typeD"}

  /** Every entry of the table names one of the four templates. */
  lemma TableValues()
    ensures forall k :: k in TemplateMap ==> TemplateMap[k] in Templates
    ensures "DEFAULT" in TemplateMap && TemplateMap["DEFAULT"] == "typeA"
  {
  }

  /** `resolve_nrcell_grp_template_key`: a missing or empty type, or one not in the table, gets
      the DEFAULT entry. */
  function Resolve(ruType: Option<string>): (r: string)
    ensures r in Templates
    ensures (ruType.None? || ruType.value == "") ==> r == "typeA"
    ensures ruType.Some? && ruType.value != "" && ruType.value in TemplateMap ==> r == TemplateMap[ruType.value]
    ensures ruType.Some? && ruType.value !in TemplateMap ==> r == "typeA"
  {
    TableValues();
    if ruType.None? || ruType.value == "" then TemplateMap["DEFAULT"]
    else if ruType.value in TemplateMap then TemplateMap[ruType.value]
    else TemplateMap["DEFAULT"]
  }
}

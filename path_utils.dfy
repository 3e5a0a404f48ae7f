// Data-directory layout of the client (cli/common/util/path_utils.py). A path is the sequence
// of its components; the working and executable directories are inputs.

module PathUtils {
  import opened Wrappers

  /** `get_base_dir`: cwd/cli/data in DEV, exe_dir/data when frozen, cwd/data otherwise. */
  function BaseDir(envType: string, frozen: bool, cwd: seq<string>, exeDir: seq<string>): (r: seq<string>)
    ensures envType == "DEV" ==> r == cwd + ["cli", "data"]
    ensures envType != "DEV" && frozen ==> r == exeDir + ["data"]
    ensures envType != "DEV" && !frozen ==> r == cwd + ["data"]
  {
    if envType == "DEV" then cwd + ["cli", "data"]
    else if frozen then exeDir + ["data"]
    else cwd + ["data"]
  }

  const PathMap: map<string, seq<string>> := map[
    "logs" := ["logs"], "scripts" := ["scripts"], "rulebook" := ["rulebook"],
    "autocomm" := ["autocomm"], "history" := ["history"], "tmpl" := ["tmpl_applied"],
    "xlsx" := ["xlsx"], "mo_param" := ["mo_param_dict"], "gen_scf" := ["genScf"],
    "commit" := ["generated"]]

  /** `get_path`: base, then the category's directory, then the parts; ValueError for an unknown category. */
  function GetPath(envType: string, frozen: bool, cwd: seq<string>, exeDir: seq<string>,
                   category: string, parts: seq<string>): (r: Result<seq<string>>)
    ensures r.Err? <==> category !in PathMap
    ensures r.Ok? ==> r.value == BaseDir(envType, frozen, cwd, exeDir) + PathMap[category] + parts
  {
    if category !in PathMap then Err("Unknown category: " + category)
    else Ok(BaseDir(envType, frozen, cwd, exeDir) + PathMap[category] + parts)
  }

  /** Every category maps to a single directory, and the path ends with the parts. */
  lemma GetPathShape(envType: string, frozen: bool, cwd: seq<string>, exeDir: seq<string>,
                     category: string, parts: seq<string>)
    requires category in PathMap
    ensures var p := GetPath(envType, frozen, cwd, exeDir, category, parts).value;
            |p| == |BaseDir(envType, frozen, cwd, exeDir)| + 1 + |parts|
            && p[|p| - |parts|..] == parts
            && p[|BaseDir(envType, frozen, cwd, exeDir)|] == PathMap[category][0]
    ensures category == "commit" ==> PathMap[category] == ["generated"]
    ensures category == "tmpl" ==> PathMap[category] == ["tmpl_applied"]
  {
  }
}

// Row validation of the `autocomm` sheets (`_parse_excel_rows_init_bts` and
// `_parse_excel_rows_init_cell`) and the numbering of the generated script
// files (`_write_script_files`).

module AutocommRows {
  import opened Wrappers
  import opened Text
  import opened AutocommCommands

  /** The values `_parse_row_values_*` extracted from one data row, by logical key. */
  type Parsed = map<string, Cell>

  /** `parsed.get(key)`: a missing key reads as None. */
  function Get(p: Parsed, k: string): (r: Cell)
    ensures k in p ==> r == p[k]
    ensures k !in p ==> r == NoValue
  {
    if k in p then p[k] else NoValue
  }

  /** `str(val).strip().upper() == name` */
  predicate IsAction(c: Cell, name: string)
  {
    Upper(Strip(ShowCell(c))) == name
  }

  /** The `(row N)` suffix of every message; `rowIdx` is the sheet's row index. */
  function RowTag(rowIdx: nat): string
  {
    "(row " + IntToString(rowIdx + 1) + ")"
  }

  /** A list of (logical key, label) pairs that must carry a value. */
  type KeyTable = seq<(string, string)>

  const BtsKeys4G: KeyTable := [
    ("mrbts_id", "MRBTS:id"), ("enb_name", "LNBTS:enbName"), ("prod_name", "SMOD:prod-name"),
    ("ip_id", "IPIF:id"), ("ip_addr", "IPIF:localIpAddr"), ("prefix_len", "IPIF:localIpPrefixLength"),
    ("iprt_gateway", "IPRT:gateway"), ("vlanif_id", "VLANIF:id"), ("vlan_id", "VLANIF:vlanId"),
    ("sync_id_col", "SYNC-1:id"), ("sync_prio_col", "SYNC-1:syncInputPrio"),
    ("sync_type_col", "SYNC-1:syncInputType"), ("ntp_id", "NTP:id"),
    ("ntp_server_ip_addr", "NTP:ntpServerIpAddrList[]"), ("netact_id", "CTRLTS-1:id"),
    ("netact_ip_addr", "CTRLTS-1:netActIpAddr"), ("radio_type", "Radio:Type"),
    ("radio_ver", "Radio:Version")]

  /** The 4G table without the two NTP entries. */
  const BtsKeys5G: KeyTable := [
    ("mrbts_id", "MRBTS:id"), ("enb_name", "LNBTS:enbName"), ("prod_name", "SMOD:prod-name"),
    ("ip_id", "IPIF:id"), ("ip_addr", "IPIF:localIpAddr"), ("prefix_len", "IPIF:localIpPrefixLength"),
    ("iprt_gateway", "IPRT:gateway"), ("vlanif_id", "VLANIF:id"), ("vlan_id", "VLANIF:vlanId"),
    ("sync_id_col", "SYNC-1:id"), ("sync_prio_col", "SYNC-1:syncInputPrio"),
    ("sync_type_col", "SYNC-1:syncInputType"), ("netact_id", "CTRLTS-1:id"),
    ("netact_ip_addr", "CTRLTS-1:netActIpAddr"), ("radio_type", "Radio:Type"),
    ("radio_ver", "Radio:Version")]

  const CellKeys4G: KeyTable := [
    ("mrbts_id", "MRBTS:id"), ("mrbts_ip", "MRBTS:ip-addr"), ("rmod_id", "RMOD:id"),
    ("prod_name", "RMOD:prod-name"), ("radio_type", "Radio:Type"), ("radio_ver", "Radio:Version"),
    ("lncel_id", "LNCEL/NRCELL:id"), ("cell_name", "LNCEL/NRCELL:cellName"),
    ("lcr_id", "LNCEL/NRCELL:lcrId"), ("phy_cell_id", "LNCEL/NRCELL:phyCellId"),
    ("tac", "LNCEL/NRCELL:tac"), ("nbiot_linked_cell_id", "LNCEL/NRCELL:nbIotLinkedCellId"),
    ("lncel_fdd_id", "LNCEL_FDD/NRCELL:id"), ("root_seq_index", "LNCEL_FDD/NRCELL:rootSeqIndex"),
    ("cablink_id", "CABLINK:id"), ("dest_mod", "CABLINK:dest-mod"),
    ("first_endpoint_label", "CABLINK:firstEndpointLabel"),
    ("first_endpoint_port_id", "CABLINK:firstEndpointPortId"),
    ("second_endpoint_label", "CABLINK:secondEndpointLabel"),
    ("second_endpoint_port_id", "CABLINK:secondEndpointPortId")]

  /** The 4G table without `nbiot_linked_cell_id` and `lncel_fdd_id`. */
  const CellKeys5G: KeyTable := [
    ("mrbts_id", "MRBTS:id"), ("mrbts_ip", "MRBTS:ip-addr"), ("rmod_id", "RMOD:id"),
    ("prod_name", "RMOD:prod-name"), ("radio_type", "Radio:Type"), ("radio_ver", "Radio:Version"),
    ("lncel_id", "LNCEL/NRCELL:id"), ("cell_name", "LNCEL/NRCELL:cellName"),
    ("lcr_id", "LNCEL/NRCELL:lcrId"), ("phy_cell_id", "LNCEL/NRCELL:phyCellId"),
    ("tac", "LNCEL/NRCELL:tac"),
    ("root_seq_index", "LNCEL_FDD/NRCELL:rootSeqIndex"),
    ("cablink_id", "CABLINK:id"), ("dest_mod", "CABLINK:dest-mod"),
    ("first_endpoint_label", "CABLINK:firstEndpointLabel"),
    ("first_endpoint_port_id", "CABLINK:firstEndpointPortId"),
    ("second_endpoint_label", "CABLINK:secondEndpointLabel"),
    ("second_endpoint_port_id", "CABLINK:secondEndpointPortId")]

  /** Radio products whose 4G cells must carry the LNCEL_IOT values. */
  const IotProds: seq<string> := ["AHCA", "FXCA", "FRCG", "FHCA", "FHCB", "FHCG"]

  const IotKeys: KeyTable := [
    ("iot_lncel_id", "LNCEL_IOT:id"), ("iot_lcr_id", "LNCEL_IOT:lcrId"),
    ("iot_nbiot_linked_cell_id", "LNCEL_IOT:nbIotLinkedCellId")]

  /** Keys of cell rows that accept 0: only None and "" count as missing. */
  predicate ZeroAllowed(k: string)
  {
    k == "lncel_fdd_id" || k == "nbiot_linked_cell_id"
  }

  /** Does the value of `k` count as missing on a cell row? */
  predicate CellMissing(k: string, v: Cell)
  {
    if ZeroAllowed(k) then v == NoValue || v == Text("") else !CellTruthy(v)
  }

  // ----- messages (English renderings of the Korean texts of the row checks) -----

  function MsgBadRadioType(v: Cell, rowIdx: nat): string
  {
    "radio_type value is not valid: '" + ShowCell(v) + "' " + RowTag(rowIdx)
  }

  function MsgBadRadioVer(v: Cell, rowIdx: nat): string
  {
    "radio_ver value is not valid: '" + ShowCell(v) + "' " + RowTag(rowIdx)
  }

  function MsgMissing(name: string, rowIdx: nat): string
  {
    name + " value is missing " + RowTag(rowIdx)
  }

  function MsgVlanRange(v: Cell, rowIdx: nat): string
  {
    "vlan_id value is not in the valid range (0~4094): '" + ShowCell(v) + "' " + RowTag(rowIdx)
  }

  function MsgVlanNotInt(v: Cell, rowIdx: nat): string
  {
    "vlan_id value is not an integer: '" + ShowCell(v) + "' " + RowTag(rowIdx)
  }

  function MsgMtrace(ids: nat, addrs: nat, rowIdx: nat): string
  {
    "CTRLTS-1/MTRACE id(" + IntToString(ids) + ") and address(" + IntToString(addrs)
    + ") counts differ " + RowTag(rowIdx)
  }

  function MsgIotMissing(name: string, prod: string, rowIdx: nat): string
  {
    name + " value is missing (prod_name=" + prod + ", row " + IntToString(rowIdx + 1) + ")"
  }

  function MsgIotPresent(name: string, prod: string, rowIdx: nat): string
  {
    name + " value must be empty (prod_name=" + prod + ", row " + IntToString(rowIdx + 1) + ")"
  }

  // ----- one rule at a time -----

  /** The missing-value messages for a key table, in table order; `zeroOk` selects the cell rule. */
  function MissingEntries(p: Parsed, keys: KeyTable, zeroOk: bool, rowIdx: nat): (r: seq<Option<string>>)
    ensures |r| == |keys|
    ensures forall i :: 0 <= i < |keys| ==>
              (r[i].Some? <==> if zeroOk then CellMissing(keys[i].0, Get(p, keys[i].0))
                                         else !CellTruthy(Get(p, keys[i].0)))
  {
    seq(|keys|, i requires 0 <= i < |keys| =>
      var v := Get(p, keys[i].0);
      if (if zeroOk then CellMissing(keys[i].0, v) else !CellTruthy(v))
      then Some(MsgMissing(keys[i].1, rowIdx)) else None)
  }

  /** No missing-value message exactly when every key of the table carries a value. */
  function MissingErrors(p: Parsed, keys: KeyTable, zeroOk: bool, rowIdx: nat): (r: seq<string>)
    ensures r == [] <==>
            forall i :: 0 <= i < |keys| ==>
              if zeroOk then !CellMissing(keys[i].0, Get(p, keys[i].0)) else CellTruthy(Get(p, keys[i].0))
  {
    var es := MissingEntries(p, keys, zeroOk, rowIdx);
    SomesEmpty(es);
    Somes(es)
  }

  /** `int(vlan_id)` on an integer or a text cell. */
  function IntOf(v: Cell): Option<int>
  {
    match v
    case Number(n) => Some(n)
    case Text(t) => ParseInt(t)
    case NoValue => None
  }

  /** The `vlan_id` rule: only a present value is checked, and it must be an integer in 0..4094. */
  function VlanErrors(v: Cell, rowIdx: nat): (r: seq<string>)
    ensures |r| <= 1
    ensures r == [] <==> !CellTruthy(v) || (IntOf(v).Some? && 0 <= IntOf(v).value <= 4094)
    ensures r != [] && IntOf(v).None? ==> r == [MsgVlanNotInt(v, rowIdx)]
  {
    if !CellTruthy(v) then []
    else match IntOf(v)
      case None => [MsgVlanNotInt(v, rowIdx)]
      case Some(n) => if 0 <= n <= 4094 then [] else [MsgVlanRange(v, rowIdx)]
  }

  /** The MTRACE rule: as many ids as addresses. */
  function MtraceErrors(ids: nat, addrs: nat, rowIdx: nat): (r: seq<string>)
    ensures r == [] <==> ids == addrs
  {
    if ids != addrs then [MsgMtrace(ids, addrs, rowIdx)] else []
  }

  // ----- data rows -----

  /** One data row: its sheet row index, the action cell, the parsed values and, on the BTS
      sheet, the lengths of the MTRACE id and address lists. */
  datatype Row = Row(index: nat, action: Cell, values: Parsed, mtraceIds: nat, mtraceAddrs: nat)

  /** The two sheets the generator reads. */
  datatype Sheet = BtsSheet | CellSheet

  /** The action a data row must carry to be processed; other rows are skipped. */
  function ActionOf(sheet: Sheet): string
  {
    if sheet.BtsSheet? then "INIT-BTS" else "INIT-CELL"
  }

  /** The outcome of validating one row: its messages and the key table it used (which the
      next row inherits), or the exception that ends the whole sheet. */
  datatype Check = Checked(errors: seq<string>, keys: KeyTable) | Crashed(reason: string)

  /** "radio_type not in VALID_RADIO_TYPES": the valid values are text. */
  predicate Listed(v: Cell, valid: set<string>)
  {
    v.Text? && v.s in valid
  }

  /** The key table a radio type selects; any other type keeps the previous row's table. */
  function KeysFor(rt: string, k4: KeyTable, k5: KeyTable, prev: Option<KeyTable>): (r: Option<KeyTable>)
    ensures Upper(rt) == "4G" ==> r == Some(k4)
    ensures Upper(rt) == "5G" ==> r == Some(k5)
    ensures Upper(rt) != "4G" && Upper(rt) != "5G" ==> r == prev
  {
    if Upper(rt) == "4G" then Some(k4) else if Upper(rt) == "5G" then Some(k5) else prev
  }

  // ----- the BTS sheet -----

  /** The radio type and version checks of a BTS row: compared as written, not upper-cased. */
  function BtsTypeErrors(rt: Cell, rv: Cell, vt: set<string>, vv: set<string>, rowIdx: nat): (r: seq<string>)
    ensures r == [] <==> (!CellTruthy(rt) || Listed(rt, vt)) && (!CellTruthy(rv) || Listed(rv, vv))
  {
    (if CellTruthy(rt) && !Listed(rt, vt) then [MsgBadRadioType(rt, rowIdx)] else [])
    + (if CellTruthy(rv) && !Listed(rv, vv) then [MsgBadRadioVer(rv, rowIdx)] else [])
  }

  /** The checks of one INIT-BTS row. `radio_type.upper()` raises on a non-text radio type,
      and the key table is unbound when the first checked row is neither 4G nor 5G. */
  function CheckBtsRow(row: Row, prev: Option<KeyTable>, vt: set<string>, vv: set<string>): (c: Check)
    ensures c.Crashed? <==> !Get(row.values, "radio_type").Text?
                            || KeysFor(Get(row.values, "radio_type").s, BtsKeys4G, BtsKeys5G, prev).None?
    ensures c.Checked? ==> Some(c.keys) == KeysFor(Get(row.values, "radio_type").s, BtsKeys4G, BtsKeys5G, prev)
  {
    var p := row.values;
    var rowIdx := row.index;
    var rt := Get(p, "radio_type");
    if !rt.Text? then Crashed("AttributeError")
    else match KeysFor(rt.s, BtsKeys4G, BtsKeys5G, prev)
      case None => Crashed("UnboundLocalError")
      case Some(keys) =>
        Checked(BtsTypeErrors(rt, Get(p, "radio_ver"), vt, vv, rowIdx)
                + MissingErrors(p, keys, false, rowIdx)
                + VlanErrors(Get(p, "vlan_id"), rowIdx)
                + MtraceErrors(row.mtraceIds, row.mtraceAddrs, rowIdx),
                keys)
  }

  /** A checked BTS row has no message exactly when all its rules hold. */
  lemma BtsRowPasses(row: Row, prev: Option<KeyTable>, vt: set<string>, vv: set<string>)
    requires CheckBtsRow(row, prev, vt, vv).Checked?
    ensures var c := CheckBtsRow(row, prev, vt, vv);
            var p := row.values;
            var rt := Get(p, "radio_type");
            var rv := Get(p, "radio_ver");
            var v := Get(p, "vlan_id");
            c.errors == [] <==>
              && (!CellTruthy(rt) || Listed(rt, vt))
              && (!CellTruthy(rv) || Listed(rv, vv))
              && (forall i :: 0 <= i < |c.keys| ==> CellTruthy(Get(p, c.keys[i].0)))
              && (!CellTruthy(v) || (IntOf(v).Some? && 0 <= IntOf(v).value <= 4094))
              && row.mtraceIds == row.mtraceAddrs
  {
  }

  /** A BTS row whose VLAN id is text that is not an integer fails with that message. */
  lemma VlanNotIntegerFails(row: Row, prev: Option<KeyTable>, vt: set<string>, vv: set<string>, t: string)
    requires CheckBtsRow(row, prev, vt, vv).Checked?
    requires Get(row.values, "vlan_id") == Text(t) && t != "" && ParseInt(t).None?
    ensures MsgVlanNotInt(Text(t), row.index) in CheckBtsRow(row, prev, vt, vv).errors
  {
    var c := CheckBtsRow(row, prev, vt, vv);
    var p := row.values;
    var rowIdx := row.index;
    var a := BtsTypeErrors(Get(p, "radio_type"), Get(p, "radio_ver"), vt, vv, rowIdx) + MissingErrors(p, c.keys, false, rowIdx);
    assert c.errors == a + [MsgVlanNotInt(Text(t), rowIdx)] + MtraceErrors(row.mtraceIds, row.mtraceAddrs, rowIdx);
    assert c.errors[|a|] == MsgVlanNotInt(Text(t), rowIdx);
  }

  // ----- the cell sheet -----

  /** The radio type and version checks of a cell row: upper-cased before the lookup. */
  function CellTypeErrors(rt: string, rv: Cell, vt: set<string>, vv: set<string>, rowIdx: nat): (r: seq<string>)
    ensures r == [] <==> (rt == "" || Upper(rt) in vt) && (!rv.Text? || rv.s == "" || Upper(rv.s) in vv)
  {
    (if rt != "" && Upper(rt) !in vt then [MsgBadRadioType(Text(rt), rowIdx)] else [])
    + (if rv.Text? && rv.s != "" && Upper(rv.s) !in vv then [MsgBadRadioVer(rv, rowIdx)] else [])
  }

  /** `str(parsed.get("prod_name") or "").strip().upper()` */
  function ProdKey(v: Cell): string
  {
    Upper(Strip(if CellTruthy(v) then ShowCell(v) else ""))
  }

  /** The LNCEL_IOT messages of one key: required for the products in `IotProds`, forbidden
      for the others. */
  function IotEntries(p: Parsed, prod: string, rowIdx: nat): (r: seq<Option<string>>)
    ensures |r| == |IotKeys|
    ensures forall i :: 0 <= i < |IotKeys| ==>
              (r[i].Some? <==> (prod in IotProds <==> !CellTruthy(Get(p, IotKeys[i].0))))
  {
    seq(|IotKeys|, i requires 0 <= i < |IotKeys| =>
      var v := Get(p, IotKeys[i].0);
      if prod in IotProds then
        (if !CellTruthy(v) then Some(MsgIotMissing(IotKeys[i].1, prod, rowIdx)) else None)
      else
        (if CellTruthy(v) then Some(MsgIotPresent(IotKeys[i].1, prod, rowIdx)) else None))
  }

  /** The LNCEL_IOT rule: no message exactly when the IOT values are all present for a listed
      product and all absent for any other. */
  function IotErrors(p: Parsed, prod: string, rowIdx: nat): (r: seq<string>)
    ensures r == [] <==> forall i :: 0 <= i < |IotKeys| ==> (prod in IotProds <==> CellTruthy(Get(p, IotKeys[i].0)))
  {
    var es := IotEntries(p, prod, rowIdx);
    SomesEmpty(es);
    Somes(es)
  }

  /** The checks of one INIT-CELL row. A non-text radio type, or a non-zero number as radio
      version, raises on `.upper()`; the key table is unbound as on the BTS sheet. */
  function CheckCellRow(row: Row, prev: Option<KeyTable>, vt: set<string>, vv: set<string>): (c: Check)
    ensures c.Crashed? <==> !Get(row.values, "radio_type").Text?
                            || (CellTruthy(Get(row.values, "radio_ver")) && Get(row.values, "radio_ver").Number?)
                            || KeysFor(Get(row.values, "radio_type").s, CellKeys4G, CellKeys5G, prev).None?
    ensures c.Checked? ==> Some(c.keys) == KeysFor(Get(row.values, "radio_type").s, CellKeys4G, CellKeys5G, prev)
  {
    var p := row.values;
    var rowIdx := row.index;
    var rt := Get(p, "radio_type");
    var rv := Get(p, "radio_ver");
    if !rt.Text? || (rv.Number? && rv.n != 0) then Crashed("AttributeError")
    else match KeysFor(rt.s, CellKeys4G, CellKeys5G, prev)
      case None => Crashed("UnboundLocalError")
      case Some(keys) =>
        Checked(CellTypeErrors(rt.s, rv, vt, vv, rowIdx)
                + MissingErrors(p, keys, true, rowIdx)
                + (if Upper(rt.s) == "4G" then IotErrors(p, ProdKey(Get(p, "prod_name")), rowIdx) else []),
                keys)
  }

  /** Zero counts as a value only for `lncel_fdd_id` and `nbiot_linked_cell_id`; None and ""
      are missing everywhere, and any other truthy value is present everywhere. */
  lemma ZeroAcceptedOnlyForIdKeys(k: string, v: Cell)
    ensures CellMissing(k, Number(0)) <==> !ZeroAllowed(k)
    ensures CellMissing(k, NoValue) && CellMissing(k, Text(""))
    ensures CellTruthy(v) ==> !CellMissing(k, v)
    ensures !CellTruthy(v) && v != Number(0) ==> CellMissing(k, v)
  {
  }

  /** A checked cell row has no message exactly when all its rules hold. */
  lemma CellRowPasses(row: Row, prev: Option<KeyTable>, vt: set<string>, vv: set<string>)
    requires CheckCellRow(row, prev, vt, vv).Checked?
    ensures var c := CheckCellRow(row, prev, vt, vv);
            var p := row.values;
            var rt := Get(p, "radio_type").s;
            var rv := Get(p, "radio_ver");
            var prod := ProdKey(Get(p, "prod_name"));
            c.errors == [] <==>
              && (rt == "" || Upper(rt) in vt)
              && (!rv.Text? || rv.s == "" || Upper(rv.s) in vv)
              && (forall i :: 0 <= i < |c.keys| ==> !CellMissing(c.keys[i].0, Get(p, c.keys[i].0)))
              && (Upper(rt) == "4G" ==>
                    forall i :: 0 <= i < |IotKeys| ==> (prod in IotProds <==> CellTruthy(Get(p, IotKeys[i].0))))
  {
    var c := CheckCellRow(row, prev, vt, vv);
    var p := row.values;
    var rt := Get(p, "radio_type").s;
    var a := CellTypeErrors(rt, Get(p, "radio_ver"), vt, vv, row.index);
    var b := MissingErrors(p, c.keys, true, row.index);
    var d := if Upper(rt) == "4G" then IotErrors(p, ProdKey(Get(p, "prod_name")), row.index) else [];
    assert c.errors == a + b + d;
    assert c.errors == [] <==> a == [] && b == [] && d == [];
  }

  /** The label shown in a cell file's name: `str(lncel_id or "UNKNOWN")`. */
  function CellIdOf(p: Parsed): (r: string)
    ensures CellTruthy(Get(p, "lncel_id")) ==> r == ShowCell(Get(p, "lncel_id"))
    ensures !CellTruthy(Get(p, "lncel_id")) ==> r == "UNKNOWN"
  {
    var v := Get(p, "lncel_id");
    if CellTruthy(v) then ShowCell(v) else "UNKNOWN"
  }

  // ----- entries and scans -----

  /** The DU id of an entry: the MRBTS id, or "row<N>" when it has none. */
  function DuOf(p: Parsed, rowIdx: nat): (r: string)
    ensures CellTruthy(Get(p, "mrbts_id")) ==> r == ShowCell(Get(p, "mrbts_id"))
    ensures !CellTruthy(Get(p, "mrbts_id")) ==> r == "row" + IntToString(rowIdx + 1)
  {
    var m := Get(p, "mrbts_id");
    if CellTruthy(m) then ShowCell(m) else "row" + IntToString(rowIdx + 1)
  }

  /** One validated row: its DU id, its kind ("bts" or "cell-<LNCEL id>"), whether it failed,
      and its messages. The generated script itself is not part of this model. */
  datatype Entry = Entry(du: string, kind: string, fail: bool, errors: seq<string>)

  function NewEntry(du: string, kind: string, errors: seq<string>): (e: Entry)
    ensures e.du == du && e.kind == kind && e.errors == errors
    ensures e.fail <==> errors != []
  {
    Entry(du, kind, errors != [], errors)
  }

  function CheckRow(sheet: Sheet, row: Row, prev: Option<KeyTable>, vt: set<string>, vv: set<string>): Check
  {
    if sheet.BtsSheet? then CheckBtsRow(row, prev, vt, vv) else CheckCellRow(row, prev, vt, vv)
  }

  function KindOf(sheet: Sheet, p: Parsed): (r: string)
    ensures sheet.BtsSheet? ==> r == "bts"
    ensures sheet.CellSheet? ==> r == "cell-" + CellIdOf(p)
  {
    if sheet.BtsSheet? then "bts" else "cell-" + CellIdOf(p)
  }

  /** The state of a sheet scan: the entries so far and the key table the next row inherits,
      or the exception that stopped it. */
  datatype Scan = Scanned(entries: seq<Entry>, keys: Option<KeyTable>) | Aborted(reason: string)

  /** The scan of a sheet's data rows, one row after the other. */
  function SheetScan(sheet: Sheet, rows: seq<Row>, vt: set<string>, vv: set<string>): Scan
    decreases |rows|
  {
    if rows == [] then Scanned([], None)
    else
      var n := |rows| - 1;
      SheetStep(sheet, SheetScan(sheet, rows[..n], vt, vv), rows[n], vt, vv)
  }

  function SheetStep(sheet: Sheet, sc: Scan, row: Row, vt: set<string>, vv: set<string>): Scan
  {
    match sc
    case Aborted(k) => Aborted(k)
    case Scanned(es, prev) =>
      if !IsAction(row.action, ActionOf(sheet)) then sc
      else match CheckRow(sheet, row, prev, vt, vv)
        case Crashed(k) => Aborted(k)
        case Checked(errs, keys) =>
          Scanned(es + [NewEntry(DuOf(row.values, row.index), KindOf(sheet, row.values), errs)], Some(keys))
  }

  /** The body of the row loop for one row. */
  method ScanRow(sheet: Sheet, entries: seq<Entry>, keys: Option<KeyTable>, row: Row, vt: set<string>, vv: set<string>)
    returns (r: Scan)
    ensures r == SheetStep(sheet, Scanned(entries, keys), row, vt, vv)
  {
    r := Scanned(entries, keys);
    if IsAction(row.action, ActionOf(sheet)) {
      var c := CheckRow(sheet, row, keys, vt, vv);
      if c.Crashed? {
        return Aborted(c.reason);
      }
      r := Scanned(entries + [NewEntry(DuOf(row.values, row.index), KindOf(sheet, row.values), c.errors)], Some(c.keys));
    }
  }

  /** The row loop of `_parse_excel_rows_init_bts` / `_cell`: a row that raises
      ends the scan. */
  method ScanRows(sheet: Sheet, rows: seq<Row>, vt: set<string>, vv: set<string>) returns (r: Scan)
    ensures r == SheetScan(sheet, rows, vt, vv)
  {
    var entries: seq<Entry> := [];
    var keys: Option<KeyTable> := None;
    var i := 0;
    while i < |rows|
      invariant i <= |rows|
      invariant SheetScan(sheet, rows[..i], vt, vv) == Scanned(entries, keys)
    {
      ScanSnoc(sheet, rows, i, vt, vv);
      var next := ScanRow(sheet, entries, keys, rows[i], vt, vv);
      if next.Aborted? {
        AbortSticks(sheet, rows, i + 1, vt, vv);
        return next;
      }
      entries, keys := next.entries, next.keys;
      i := i + 1;
    }
    assert rows[..i] == rows;
    r := Scanned(entries, keys);
  }

  lemma ScanSnoc(sheet: Sheet, rows: seq<Row>, i: nat, vt: set<string>, vv: set<string>)
    requires i < |rows|
    ensures SheetScan(sheet, rows[..i + 1], vt, vv) == SheetStep(sheet, SheetScan(sheet, rows[..i], vt, vv), rows[i], vt, vv)
  {
    assert rows[..i + 1][..i] == rows[..i];
  }

  lemma StepKeepsAbort(sheet: Sheet, sc: Scan, row: Row, vt: set<string>, vv: set<string>)
    requires sc.Aborted?
    ensures SheetStep(sheet, sc, row, vt, vv) == sc
  {
  }

  /** Once a row has raised, the rest of the sheet is not looked at. */
  lemma {:induction false} AbortSticks(sheet: Sheet, rows: seq<Row>, k: nat, vt: set<string>, vv: set<string>)
    requires k <= |rows| && SheetScan(sheet, rows[..k], vt, vv).Aborted?
    ensures SheetScan(sheet, rows, vt, vv) == SheetScan(sheet, rows[..k], vt, vv)
    decreases |rows| - k
  {
    if k == |rows| {
      assert rows[..k] == rows;
    } else {
      var n := |rows| - 1;
      assert rows[..n][..k] == rows[..k];
      AbortSticks(sheet, rows[..n], k, vt, vv);
      ghost var sc := SheetScan(sheet, rows[..n], vt, vv);
      StepKeepsAbort(sheet, sc, rows[n], vt, vv);
      ScanSnoc(sheet, rows, n, vt, vv);
      assert rows[..n + 1] == rows;
    }
  }

  /** Every entry of a scan fails exactly when it has messages and carries the sheet's kind,
      and there are no more entries than rows. */
  lemma {:induction false} ScanEntries(sheet: Sheet, rows: seq<Row>, vt: set<string>, vv: set<string>)
    ensures var sc := SheetScan(sheet, rows, vt, vv);
            sc.Scanned? ==> |sc.entries| <= |rows|
                            && forall e :: e in sc.entries ==>
                                 (e.fail <==> e.errors != [])
                                 && (if sheet.BtsSheet? then e.kind == "bts" else StartsWith(e.kind, "cell-"))
    decreases |rows|
  {
    if rows != [] {
      var n := |rows| - 1;
      ScanEntries(sheet, rows[..n], vt, vv);
      var prev := SheetScan(sheet, rows[..n], vt, vv);
      assert SheetScan(sheet, rows, vt, vv) == SheetStep(sheet, prev, rows[n], vt, vv);
      if prev.Scanned? {
        StepEntries(sheet, prev, rows[n], vt, vv);
      }
    }
  }

  /** An entry as the scan records it: failed exactly when it has messages, of the sheet's kind. */
  predicate EntryFits(sheet: Sheet, e: Entry)
  {
    (e.fail <==> e.errors != []) && (if sheet.BtsSheet? then e.kind == "bts" else StartsWith(e.kind, "cell-"))
  }

  /** One row adds at most one entry, and that entry fits the sheet. */
  lemma StepEntries(sheet: Sheet, sc: Scan, row: Row, vt: set<string>, vv: set<string>)
    requires sc.Scanned? && forall e :: e in sc.entries ==> EntryFits(sheet, e)
    ensures var r := SheetStep(sheet, sc, row, vt, vv);
            r.Scanned? ==> |r.entries| <= |sc.entries| + 1 && forall e :: e in r.entries ==> EntryFits(sheet, e)
  {
    var c := CheckRow(sheet, row, sc.keys, vt, vv);
    if IsAction(row.action, ActionOf(sheet)) && c.Checked? {
      var kind := KindOf(sheet, row.values);
      assert sheet.CellSheet? ==> StartsWith(kind, "cell-") by {
        if sheet.CellSheet? {
          assert kind[..|"cell-"|] == "cell-";
        }
      }
      var e := NewEntry(DuOf(row.values, row.index), kind, c.errors);
      assert EntryFits(sheet, e);
      assert SheetStep(sheet, sc, row, vt, vv) == Scanned(sc.entries + [e], Some(c.keys));
    }
  }
}

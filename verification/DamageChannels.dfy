/** The fixed damage channels derived from a channel map. */
module DamageChannels {
  import opened Options
  import opened Text

  datatype Axis = X | Y

  datatype Group = Group(xyPlot: string, xzPlot: string, xKey: string, yKey: string, zKey: string,
                         xLabel: string, yLabel: string, zLabel: string)

  const GROUPS: seq<Group> := [
    Group("bj_xy_force_plot", "bj_xz_force_plot", "bj_x_force", "bj_y_force", "bj_z_force",
          "BJ X Force", "BJ Y Force", "BJ Z Force"),
    Group("shock_xy_force_plot", "shock_xz_force_plot", "shock_x_force", "shock_y_force", "shock_z_force",
          "Shock X Force", "Shock Y Force", "Shock Z Force"),
    Group("bushing_f_xy_force_plot", "bushing_f_xz_force_plot",
          "bushing_f_x_momt", "bushing_f_y_momt", "bushing_f_z_momt",
          "Bushing F X Momt", "Bushing F Y Momt", "Bushing F Z Momt"),
    Group("bushing_r_xy_force_plot", "bushing_r_xz_force_plot",
          "bushing_r_x_momt", "bushing_r_y_momt", "bushing_r_z_momt",
          "Bushing R X Momt", "Bushing R Y Momt", "Bushing R Z Momt")]

  /** The keys of the groups' channels, group by group. */
  function KeysOf(groups: seq<Group>): (r: seq<string>)
    ensures |r| == 3 * |groups|
  {
    if groups == [] then []
    else
      var n := |groups| - 1;
      KeysOf(groups[..n]) + [groups[n].xKey, groups[n].yKey, groups[n].zKey]
  }

  /** The twelve fixed damage channels. */
  const DAMAGE_KEYS: seq<string> := KeysOf(GROUPS)

  lemma DamageKeysAre()
    ensures DAMAGE_KEYS == ["bj_x_force", "bj_y_force", "bj_z_force", "shock_x_force", "shock_y_force", "shock_z_force",
                            "bushing_f_x_momt", "bushing_f_y_momt", "bushing_f_z_momt",
                            "bushing_r_x_momt", "bushing_r_y_momt", "bushing_r_z_momt"]
  {
    var g := GROUPS;
    assert g[..4] == g && g[..3][..2] == g[..2] && g[..2][..1] == g[..1] && g[..1][..0] == [];
    assert KeysOf(g[..1]) == ["bj_x_force", "bj_y_force", "bj_z_force"];
    assert KeysOf(g[..2]) == KeysOf(g[..1]) + ["shock_x_force", "shock_y_force", "shock_z_force"];
    assert KeysOf(g[..3]) == KeysOf(g[..2]) + ["bushing_f_x_momt", "bushing_f_y_momt", "bushing_f_z_momt"];
  }

  datatype ChannelMapRow = ChannelMapRow(plotKey: string, xCol: Option<int>, yCol: Option<int>,
                                         xChannel: Option<string>, yChannel: Option<string>,
                                         xUnit: Option<string>, yUnit: Option<string>)

  datatype SpecError = MissingPlots(plots: seq<string>) | SharedXDisagrees | NotConfigured(plotKey: string, axis: Axis)

  datatype DamageChannelSpec = DamageChannelSpec(key: string, title: string, plotKey: string, axis: Axis,
                                                 channelName: Option<string>, unit: Option<string>,
                                                 error: Option<SpecError>)

  /** The last row of a plot key: later rows overwrite earlier ones. */
  function PlotRow(rows: seq<ChannelMapRow>, plotKey: string): (r: Option<ChannelMapRow>)
    ensures r.Some? ==> r.value in rows && r.value.plotKey == plotKey
    ensures r.None? <==> forall k :: 0 <= k < |rows| ==> rows[k].plotKey != plotKey
  {
    if rows == [] then None
    else
      var n := |rows| - 1;
      if rows[n].plotKey == plotKey then Some(rows[n]) else PlotRow(rows[..n], plotKey)
  }

  function Stripped(value: Option<string>): Option<string> {
    if value.None? || Strip(value.value) == "" then None else Some(Strip(value.value))
  }

  function ChannelName(row: ChannelMapRow, axis: Axis): Option<string> {
    Stripped(if axis == X then row.xChannel else row.yChannel)
  }

  function Unit(row: ChannelMapRow, axis: Axis): Option<string> {
    Stripped(if axis == X then row.xUnit else row.yUnit)
  }

  function Spec(key: string, title: string, plotKey: string, axis: Axis, row: ChannelMapRow): DamageChannelSpec {
    var name := ChannelName(row, axis);
    DamageChannelSpec(key, title, plotKey, axis, name, Unit(row, axis),
                      if name.None? then Some(NotConfigured(plotKey, axis)) else None)
  }

  function Unavailable(group: Group, error: SpecError): seq<DamageChannelSpec> {
    [DamageChannelSpec(group.xKey, group.xLabel, group.xyPlot, X, None, None, Some(error)),
     DamageChannelSpec(group.yKey, group.yLabel, group.xyPlot, Y, None, None, Some(error)),
     DamageChannelSpec(group.zKey, group.zLabel, group.xzPlot, Y, None, None, Some(error))]
  }

  /** Both plots exist and name the same X column and channel. */
  predicate SharesX(rows: seq<ChannelMapRow>, group: Group) {
    var xy, xz := PlotRow(rows, group.xyPlot), PlotRow(rows, group.xzPlot);
    && xy.Some? && xz.Some?
    && xy.value.xCol == xz.value.xCol && ChannelName(xy.value, X) == ChannelName(xz.value, X)
  }

  function GroupSpecs(rows: seq<ChannelMapRow>, group: Group): (r: seq<DamageChannelSpec>)
    ensures |r| == 3 && r[0].key == group.xKey && r[1].key == group.yKey && r[2].key == group.zKey
    ensures !SharesX(rows, group) ==> forall k :: 0 <= k < 3 ==> r[k].error.Some? && r[k].channelName.None?
    ensures SharesX(rows, group) ==> forall k :: 0 <= k < 3 ==> (r[k].error.None? <==> r[k].channelName.Some?)
  {
    var xy, xz := PlotRow(rows, group.xyPlot), PlotRow(rows, group.xzPlot);
    if xy.None? || xz.None? then
      Unavailable(group, MissingPlots((if xy.None? then [group.xyPlot] else [])
                                      + if xz.None? then [group.xzPlot] else []))
    else if !SharesX(rows, group) then Unavailable(group, SharedXDisagrees)
    else
      [Spec(group.xKey, group.xLabel, group.xyPlot, X, xy.value),
       Spec(group.yKey, group.yLabel, group.xyPlot, Y, xy.value),
       Spec(group.zKey, group.zLabel, group.xzPlot, Y, xz.value)]
  }

  function SpecKeys(specs: seq<DamageChannelSpec>): (r: seq<string>)
    ensures |r| == |specs|
  {
    seq(|specs|, k requires 0 <= k < |specs| => specs[k].key)
  }

  function SpecsOf(rows: seq<ChannelMapRow>, groups: seq<Group>): seq<DamageChannelSpec> {
    if groups == [] then []
    else SpecsOf(rows, groups[..|groups| - 1]) + GroupSpecs(rows, groups[|groups| - 1])
  }

  /** A spec carries an error exactly when it has no channel name. */
  ghost predicate NamedOrError(specs: seq<DamageChannelSpec>) {
    forall k :: 0 <= k < |specs| ==> (specs[k].error.None? <==> specs[k].channelName.Some?)
  }

  lemma AppendKeys(specs: seq<DamageChannelSpec>, more: seq<DamageChannelSpec>)
    requires NamedOrError(specs) && NamedOrError(more)
    ensures SpecKeys(specs + more) == SpecKeys(specs) + SpecKeys(more) && NamedOrError(specs + more)
  {}

  lemma GroupKeys(rows: seq<ChannelMapRow>, group: Group)
    ensures SpecKeys(GroupSpecs(rows, group)) == [group.xKey, group.yKey, group.zKey]
    ensures NamedOrError(GroupSpecs(rows, group))
  {}

  lemma {:induction false} SpecsHaveGroupKeys(rows: seq<ChannelMapRow>, groups: seq<Group>)
    ensures SpecKeys(SpecsOf(rows, groups)) == KeysOf(groups) && NamedOrError(SpecsOf(rows, groups))
  {
    if groups != [] {
      var n := |groups| - 1;
      SpecsHaveGroupKeys(rows, groups[..n]);
      GroupKeys(rows, groups[n]);
      AppendKeys(SpecsOf(rows, groups[..n]), GroupSpecs(rows, groups[n]));
    }
  }

  // ----- what a spec says

  /** row is the last one of the plot. */
  ghost predicate IsPlotRow(rows: seq<ChannelMapRow>, plotKey: string, row: ChannelMapRow) {
    exists k :: 0 <= k < |rows| && rows[k] == row && row.plotKey == plotKey
                && forall j :: k < j < |rows| ==> rows[j].plotKey != plotKey
  }

  lemma {:induction false} PlotRowIsLast(rows: seq<ChannelMapRow>, plotKey: string)
    requires PlotRow(rows, plotKey).Some?
    ensures IsPlotRow(rows, plotKey, PlotRow(rows, plotKey).value)
  {
    var n := |rows| - 1;
    if rows[n].plotKey != plotKey {
      PlotRowIsLast(rows[..n], plotKey);
      var k :| 0 <= k < n && rows[..n][k] == PlotRow(rows, plotKey).value
               && forall j :: k < j < n ==> rows[..n][j].plotKey != plotKey;
      forall j | k < j < |rows| ensures rows[j].plotKey != plotKey { assert j < n ==> rows[..n][j] == rows[j]; }
    }
  }

  /** The text without the spaces around it, and nothing of a blank one. */
  ghost predicate IsTrimmed(text: Option<string>, trimmed: Option<string>) {
    && (trimmed == None <==> text == None || IsBlank(text.value))
    && (trimmed.Some? ==> trimmed.value == Strip(text.value))
  }

  lemma StrippedIsTrimmed(text: Option<string>)
    ensures IsTrimmed(text, Stripped(text))
  {}

  /** The spec of a group's channel: x and y come from the axes of the XY plot, z from the Y axis of the XZ plot.
      It is unavailable if a plot is missing, or if the plots name different X columns or channels. */
  ghost predicate Describes(spec: DamageChannelSpec, rows: seq<ChannelMapRow>, group: Group, axis: Axis, onXz: bool) {
    var xy, xz := PlotRow(rows, group.xyPlot), PlotRow(rows, group.xzPlot);
    && spec.plotKey == (if onXz then group.xzPlot else group.xyPlot) && spec.axis == axis
    && if xy == None || xz == None then
         && spec.channelName == None && spec.unit == None
         && spec.error == Some(MissingPlots(if xy.Some? then [group.xzPlot] else if xz.Some? then [group.xyPlot]
                                            else [group.xyPlot, group.xzPlot]))
       else if xy.value.xCol != xz.value.xCol || Stripped(xy.value.xChannel) != Stripped(xz.value.xChannel) then
         spec.error == Some(SharedXDisagrees) && spec.channelName == None && spec.unit == None
       else
         var row := if onXz then xz.value else xy.value;
         && spec.channelName == Stripped(if axis == X then row.xChannel else row.yChannel)
         && spec.unit == Stripped(if axis == X then row.xUnit else row.yUnit)
         && spec.error == if spec.channelName == None then Some(NotConfigured(spec.plotKey, axis)) else None
  }

  /** Three specs from place `at` on are those of the group. */
  ghost predicate DescribeGroup(specs: seq<DamageChannelSpec>, at: nat, rows: seq<ChannelMapRow>, group: Group)
    requires at + 3 <= |specs|
  {
    && Describes(specs[at], rows, group, X, false) && specs[at].title == group.xLabel
    && Describes(specs[at + 1], rows, group, Y, false) && specs[at + 1].title == group.yLabel
    && Describes(specs[at + 2], rows, group, Y, true) && specs[at + 2].title == group.zLabel
  }

  lemma GroupSpecsSay(rows: seq<ChannelMapRow>, group: Group)
    ensures DescribeGroup(GroupSpecs(rows, group), 0, rows, group)
  {
    assert [group.xyPlot] + [group.xzPlot] == [group.xyPlot, group.xzPlot];
    assert [] + [group.xzPlot] == [group.xzPlot] && [group.xyPlot] + [] == [group.xyPlot];
  }

  lemma DescribeLater(a: seq<DamageChannelSpec>, b: seq<DamageChannelSpec>, at: nat, rows: seq<ChannelMapRow>, group: Group)
    ensures at + 3 <= |a| && DescribeGroup(a, at, rows, group) ==> DescribeGroup(a + b, at, rows, group)
    ensures 3 <= |b| && DescribeGroup(b, 0, rows, group) ==> DescribeGroup(a + b, |a|, rows, group)
  {
    if at + 3 <= |a| {
      assert (a + b)[at] == a[at] && (a + b)[at + 1] == a[at + 1] && (a + b)[at + 2] == a[at + 2];
    }
    if 3 <= |b| { assert (a + b)[|a|] == b[0] && (a + b)[|a| + 1] == b[1] && (a + b)[|a| + 2] == b[2]; }
  }

  /** The specs of group number g are the three from place 3 g on. */
  lemma {:induction false} SpecsSay(rows: seq<ChannelMapRow>, groups: seq<Group>, g: nat)
    requires g < |groups|
    ensures |SpecsOf(rows, groups)| == 3 * |groups| && DescribeGroup(SpecsOf(rows, groups), 3 * g, rows, groups[g])
  {
    var n := |groups| - 1;
    SpecsCount(rows, groups);
    SpecsCount(rows, groups[..n]);
    GroupSpecsSay(rows, groups[n]);
    if g < n { SpecsSay(rows, groups[..n], g); }
    DescribeLater(SpecsOf(rows, groups[..n]), GroupSpecs(rows, groups[n]), 3 * g, rows, groups[g]);
  }

  lemma {:induction false} SpecsCount(rows: seq<ChannelMapRow>, groups: seq<Group>)
    ensures |SpecsOf(rows, groups)| == 3 * |groups|
  {
    if groups != [] { SpecsCount(rows, groups[..|groups| - 1]); }
  }

  /** Whatever the channel map says, the specs are the twelve fixed channels in the fixed order, group
      by group, and a spec carries an error exactly when it has no channel name. */
  method DeriveDamageChannelSpecs(rows: seq<ChannelMapRow>) returns (specs: seq<DamageChannelSpec>)
    ensures specs == SpecsOf(rows, GROUPS)
    ensures SpecKeys(specs) == DAMAGE_KEYS && |specs| == 12
    ensures NamedOrError(specs)
    ensures |specs| == 3 * |GROUPS| && forall g: nat :: g < |GROUPS| ==> DescribeGroup(specs, 3 * g, rows, GROUPS[g])
  {
    specs := DeriveSpecs(rows, GROUPS);
    SpecsHaveGroupKeys(rows, GROUPS);
    AllGroupsSay(rows, GROUPS);
  }

  lemma AllGroupsSay(rows: seq<ChannelMapRow>, groups: seq<Group>)
    ensures |SpecsOf(rows, groups)| == 3 * |groups|
    ensures forall g: nat :: g < |groups| ==> DescribeGroup(SpecsOf(rows, groups), 3 * g, rows, groups[g])
  {
    SpecsCount(rows, groups);
    forall g: nat | g < |groups| ensures DescribeGroup(SpecsOf(rows, groups), 3 * g, rows, groups[g]) {
      SpecsSay(rows, groups, g);
    }
  }

  method DeriveSpecs(rows: seq<ChannelMapRow>, groups: seq<Group>) returns (specs: seq<DamageChannelSpec>)
    ensures specs == SpecsOf(rows, groups)
  {
    specs := [];
    for n := 0 to |groups|
      invariant specs == SpecsOf(rows, groups[..n])
    {
      assert groups[..n + 1][..n] == groups[..n];
      specs := specs + GroupSpecs(rows, groups[n]);
    }
    assert groups[..|groups|] == groups;
  }
}

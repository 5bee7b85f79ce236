/** The filter panel of `Page._render_materials` and the spool grid that
    `Page.render` and `Page._render_filaments` lay out, without the widgets. */
module Page {
  import opened Wrappers
  import opened Payload
  import opened Text
  import opened Seqs
  import opened Dicts
  import opened Records
  import opened Client

  /** Spools per grid row (`COLS_PER_ROW`). */
  const ColsPerRow: nat := 3

  /** The three material attributes the panel filters on. */
  datatype Facet = Brand | MaterialType | FilamentTypeName

  function Value(m: Material, f: Facet): Json {
    match f
    case Brand => m.brand
    case MaterialType => m.materialType
    case FilamentTypeName => m.filamentTypeName
  }

  /** One list of strings per facet: the selections kept in the session, the
      options offered, or the selections after pruning. */
  datatype Lists = Lists(brands: seq<string>, materialTypes: seq<string>, filamentTypeNames: seq<string>)

  function Of(l: Lists, f: Facet): seq<string> {
    match f
    case Brand => l.brands
    case MaterialType => l.materialTypes
    case FilamentTypeName => l.filamentTypeNames
  }

  /** The session before any selection: `session_state.get(key, [])`. */
  const NoSelection := Lists([], [], [])

  /** A selection admits a value when it is empty or contains it
      (`not selected or value in selected`). */
  predicate Admits(chosen: seq<string>, v: Json) {
    |chosen| == 0 || (v.JStr? && v.s in chosen)
  }

  /** A material passes every facet but `f`. */
  predicate PassesOthers(m: Material, s: Lists, f: Facet) {
    match f
    case Brand => Admits(s.materialTypes, m.materialType) && Admits(s.filamentTypeNames, m.filamentTypeName)
    case MaterialType => Admits(s.brands, m.brand) && Admits(s.filamentTypeNames, m.filamentTypeName)
    case FilamentTypeName => Admits(s.brands, m.brand) && Admits(s.materialTypes, m.materialType)
  }

  /** A material passes all three facets. */
  predicate Passes(m: Material, s: Lists) {
    Admits(s.brands, m.brand) && Admits(s.materialTypes, m.materialType) && Admits(s.filamentTypeNames, m.filamentTypeName)
  }

  /** Passing all facets is passing any one of them and the other two. */
  lemma PassesSplit(m: Material, s: Lists, f: Facet)
    ensures Passes(m, s) <==> Admits(Of(s, f), Value(m, f)) && PassesOthers(m, s, f)
  {
  }

  /** Every facet value that Python would list is a string, so `sorted` on
      the option set compares strings only. */
  predicate TextValued(m: Material) {
    forall f :: Truthy(Value(m, f)) ==> Value(m, f).JStr?
  }

  predicate TextFacets(ms: seq<Material>) {
    forall i :: 0 <= i < |ms| ==> TextValued(ms[i])
  }

  /** No selection holds the empty string; the options never offer it. */
  predicate NoBlank(s: Lists) {
    "" !in s.brands && "" !in s.materialTypes && "" !in s.filamentTypeNames
  }

  /** The options of facet `f` (`available_brands` and its two siblings):
      the sorted distinct non-empty values of the materials that pass the
      other two facets' selections. */
  function Options(ms: seq<Material>, s: Lists, f: Facet): (r: seq<string>)
    requires TextFacets(ms)
    ensures StrictlySorted(r)
    ensures forall v :: v in r <==> v != "" && exists i :: 0 <= i < |ms| && Value(ms[i], f) == JStr(v) && PassesOthers(ms[i], s, f)
    decreases |ms|
  {
    if |ms| == 0 then []
    else
      var init := ms[..|ms| - 1];
      var m := ms[|ms| - 1];
      var rest := Options(init, s, f);
      var v := Value(m, f);
      assert TextValued(m);
      var r := if Truthy(v) && PassesOthers(m, s, f) then Insert(v.s, rest) else rest;
      assert forall x :: x in r <==> x != "" && exists i :: 0 <= i < |ms| && Value(ms[i], f) == JStr(x) && PassesOthers(ms[i], s, f) by {
        forall x ensures x in r <==> x != "" && exists i :: 0 <= i < |ms| && Value(ms[i], f) == JStr(x) && PassesOthers(ms[i], s, f) {
          if x in r {
            if x in rest {
              var i :| 0 <= i < |init| && Value(init[i], f) == JStr(x) && PassesOthers(init[i], s, f);
              assert ms[i] == init[i];
            } else {
              assert Value(ms[|ms| - 1], f) == JStr(x);
            }
          }
          if x != "" && exists i :: 0 <= i < |ms| && Value(ms[i], f) == JStr(x) && PassesOthers(ms[i], s, f) {
            var i :| 0 <= i < |ms| && Value(ms[i], f) == JStr(x) && PassesOthers(ms[i], s, f);
            if i < |init| {
              assert init[i] == ms[i];
            }
          }
        }
      }
      r
  }

  /** A stored selection pruned to the options (`[b for b in selected if b in available]`). */
  function Prune(chosen: seq<string>, available: seq<string>): (r: seq<string>)
    ensures IsSubsequence(r, chosen)
    ensures forall x :: x in r <==> x in chosen && x in available
    ensures forall x :: multiset(r)[x] == if x in available then multiset(chosen)[x] else 0
  {
    Filter(chosen, x => x in available)
  }

  /** The three option lists, computed from the stored selections. */
  function Available(ms: seq<Material>, stored: Lists): (a: Lists)
    requires TextFacets(ms)
    ensures forall f :: StrictlySorted(Of(a, f)) && "" !in Of(a, f)
    ensures forall f, v :: v in Of(a, f) <==>
              v != "" && exists i :: 0 <= i < |ms| && Value(ms[i], f) == JStr(v) && PassesOthers(ms[i], stored, f)
  {
    Lists(Options(ms, stored, Brand), Options(ms, stored, MaterialType), Options(ms, stored, FilamentTypeName))
  }

  /** The selections written back to the session: each stored selection
      pruned to its facet's options. */
  function Pruned(ms: seq<Material>, stored: Lists): (p: Lists)
    requires TextFacets(ms)
    ensures NoBlank(p)
    ensures forall f :: IsSubsequence(Of(p, f), Of(stored, f))
    ensures forall f, x :: x in Of(p, f) <==> x in Of(stored, f) && x in Of(Available(ms, stored), f)
    ensures forall f, x :: multiset(Of(p, f))[x] ==
              if x in Of(Available(ms, stored), f) then multiset(Of(stored, f))[x] else 0
  {
    var a := Available(ms, stored);
    var p := Lists(Prune(stored.brands, a.brands), Prune(stored.materialTypes, a.materialTypes),
                   Prune(stored.filamentTypeNames, a.filamentTypeNames));
    assert forall f :: Of(p, f) == Prune(Of(stored, f), Of(a, f)) by {
      forall f ensures Of(p, f) == Prune(Of(stored, f), Of(a, f)) {
        if f.Brand? {
        } else if f.MaterialType? {
        }
      }
    }
    p
  }

  /** `filtered_materials`: the materials, in order, that pass every facet. */
  function FilterMaterials(ms: seq<Material>, selected: Lists): (r: seq<Material>)
    ensures IsSubsequence(r, ms)
    ensures forall m :: m in r <==> m in ms && Passes(m, selected)
    ensures forall m :: multiset(r)[m] == if Passes(m, selected) then multiset(ms)[m] else 0
    ensures selected == NoSelection ==> r == ms
  {
    if selected == NoSelection then
      FilterKeepsAll(ms, m => Passes(m, selected));
      Filter(ms, m => Passes(m, selected))
    else Filter(ms, m => Passes(m, selected))
  }

  /** `filters_active`: some facet has a selection. */
  predicate FiltersActive(selected: Lists) {
    |selected.brands| > 0 || |selected.materialTypes| > 0 || |selected.filamentTypeNames| > 0
  }

  /** A filter is active exactly when the selections are not all empty. */
  lemma ActiveIffSelected(selected: Lists)
    ensures FiltersActive(selected) <==> exists f :: |Of(selected, f)| > 0
    ensures !FiltersActive(selected) <==> selected == NoSelection
  {
    assert |Of(selected, Brand)| == |selected.brands|;
    assert |Of(selected, MaterialType)| == |selected.materialTypes|;
    assert |Of(selected, FilamentTypeName)| == |selected.filamentTypeNames|;
  }

  /** What the panel hands back: the options, the selections in force, the
      materials they let through, and whether any facet is selected. */
  datatype View = View(available: Lists, selected: Lists, filtered: seq<Material>, active: bool)

  /** `_render_materials`: the widgets return the pruned selections they were
      just given, and the materials are filtered by those. */
  function RenderMaterials(materials: Dict<Key, Material>, stored: Lists): (v: View)
    requires TextFacets(Values(materials))
    ensures v.available == Available(Values(materials), stored)
    ensures v.selected == Pruned(Values(materials), stored)
    ensures v.filtered == FilterMaterials(Values(materials), v.selected)
    ensures v.active <==> exists f :: |Of(v.selected, f)| > 0
    ensures !v.active ==> v.filtered == Values(materials)
  {
    var ms := Values(materials);
    var selected := Pruned(ms, stored);
    ActiveIffSelected(selected);
    View(Available(ms, stored), selected, FilterMaterials(ms, selected), FiltersActive(selected))
  }

  /** A material that facet `f`'s stored selection and the other two admit
      is admitted by `f`'s pruned selection. */
  lemma AdmitsPruned(ms: seq<Material>, stored: Lists, m: Material, f: Facet)
    requires TextFacets(ms) && NoBlank(stored)
    requires m in ms && Admits(Of(stored, f), Value(m, f)) && PassesOthers(m, stored, f)
    ensures Admits(Of(Pruned(ms, stored), f), Value(m, f))
  {
    var p := Pruned(ms, stored);
    if |Of(stored, f)| > 0 {
      var v := Value(m, f);
      assert "" !in Of(stored, f) by {
        if f.Brand? {
        } else if f.MaterialType? {
        }
      }
      var i :| 0 <= i < |ms| && ms[i] == m;
      assert Value(ms[i], f) == JStr(v.s);
      assert v.s in Of(Available(ms, stored), f);
    }
  }

  /** A material that passes the stored selections still passes them once pruned. */
  lemma PassesPruned(ms: seq<Material>, stored: Lists, m: Material)
    requires TextFacets(ms) && NoBlank(stored)
    requires m in ms && Passes(m, stored)
    ensures Passes(m, Pruned(ms, stored))
  {
    PassesSplit(m, stored, Brand);
    PassesSplit(m, stored, MaterialType);
    PassesSplit(m, stored, FilamentTypeName);
    AdmitsPruned(ms, stored, m, Brand);
    AdmitsPruned(ms, stored, m, MaterialType);
    AdmitsPruned(ms, stored, m, FilamentTypeName);
  }

  /** Each value left in a pruned selection belongs to a material that passes
      all the pruned selections. */
  lemma PrunedWitness(ms: seq<Material>, stored: Lists, f: Facet, x: string)
    requires TextFacets(ms) && NoBlank(stored)
    requires x in Of(Pruned(ms, stored), f)
    ensures exists i :: 0 <= i < |ms| && Value(ms[i], f) == JStr(x) && Passes(ms[i], Pruned(ms, stored))
  {
    var a := Available(ms, stored);
    assert x in Of(a, f) && x in Of(stored, f);
    var i :| 0 <= i < |ms| && Value(ms[i], f) == JStr(x) && PassesOthers(ms[i], stored, f);
    PassesSplit(ms[i], stored, f);
    PassesPruned(ms, stored, ms[i]);
  }

  /** Rendering again with the selections the panel wrote back prunes
      nothing more: the pruned selections are a fixed point. */
  lemma PruneStable(materials: Dict<Key, Material>, stored: Lists)
    requires TextFacets(Values(materials)) && NoBlank(stored)
    ensures var once := RenderMaterials(materials, stored).selected;
            RenderMaterials(materials, once).selected == once
  {
    var ms := Values(materials);
    var once := Pruned(ms, stored);
    var twice := Pruned(ms, once);
    forall f ensures Of(twice, f) == Of(once, f) {
      forall x | x in Of(once, f) ensures x in Of(Available(ms, once), f) {
        PrunedWitness(ms, stored, f, x);
        var i :| 0 <= i < |ms| && Value(ms[i], f) == JStr(x) && Passes(ms[i], once);
        PassesSplit(ms[i], once, f);
      }
      FilterKeepsAll(Of(once, f), x => x in Of(Available(ms, once), f));
      assert Of(twice, f) == Prune(Of(once, f), Of(Available(ms, once), f)) by {
        match f
        case Brand =>
        case MaterialType =>
        case FilamentTypeName =>
      }
    }
    assert twice == Lists(Of(twice, Brand), Of(twice, MaterialType), Of(twice, FilamentTypeName));
  }

  /** Whenever a filter is active, some material passes it: the panel never
      selects its way to an empty list. */
  lemma ActiveFilterNeverEmpty(materials: Dict<Key, Material>, stored: Lists)
    requires TextFacets(Values(materials)) && NoBlank(stored)
    ensures var v := RenderMaterials(materials, stored);
            v.active ==> |v.filtered| > 0
  {
    var ms := Values(materials);
    var v := RenderMaterials(materials, stored);
    if v.active {
      var f :| |Of(v.selected, f)| > 0;
      PrunedWitness(ms, stored, f, Of(v.selected, f)[0]);
      var i :| 0 <= i < |ms| && Value(ms[i], f) == JStr(Of(v.selected, f)[0]) && Passes(ms[i], v.selected);
      assert ms[i] in v.filtered;
    }
  }

  /** The keys the filtered materials' ids hash to
      (`{material.id for material in filtered_materials}`). */
  function MaterialIds(ms: seq<Material>): set<Option<Key>> {
    set m | m in ms :: KeyOf(m.id)
  }

  /** Every spool's material id can be looked up in a dict. */
  predicate LookupsDefined(filaments: Dict<Key, Filament>) {
    forall i :: 0 <= i < |filaments| ==> Hashable(filaments[i].1.materialId)
  }

  /** The spools `render` passes on: all of them without a filter, otherwise
      exactly the entries whose material id is a filtered material's id. */
  function RestrictFilaments(filaments: Dict<Key, Filament>, filtered: seq<Material>, active: bool): (r: Dict<Key, Filament>)
    ensures IsSubsequence(r, filaments)
    ensures forall e :: e in r ==> e in filaments
    ensures !active ==> r == filaments
    ensures active ==> forall e :: e in r <==> e in filaments && KeyOf(e.1.materialId) in MaterialIds(filtered)
  {
    if active then Filter(filaments, (e: (Key, Filament)) => KeyOf(e.1.materialId) in MaterialIds(filtered))
    else
      FilterKeepsAll(filaments, (e: (Key, Filament)) => true);
      filaments
  }

  /** One grid cell: the spool with its material, or the warning that the
      material is not known. */
  datatype Cell = Card(filament: Filament, material: Material) | MissingMaterial(filament: Filament)

  /** The cell for one spool (`materials.get(filament.material_id)`). */
  function CellOf(f: Filament, materials: Dict<Key, Material>): (c: Cell)
    requires Hashable(f.materialId)
    ensures c.filament == f
    ensures c.MissingMaterial? <==> KeyOf(f.materialId).value !in Keys(materials)
    ensures c.Card? ==> Find(materials, KeyOf(f.materialId).value) == Some(c.material)
  {
    match Find(materials, KeyOf(f.materialId).value)
    case None => MissingMaterial(f)
    case Some(m) => Card(f, m)
  }

  /** `_render_filaments`: one cell per spool in dict order, in rows of
      `ColsPerRow`. */
  function Grid(filaments: Dict<Key, Filament>, materials: Dict<Key, Material>): (rows: seq<seq<Cell>>)
    requires LookupsDefined(filaments)
    ensures |Flatten(rows)| == |filaments|
    ensures forall i :: 0 <= i < |filaments| ==> Flatten(rows)[i] == CellOf(filaments[i].1, materials)
    ensures forall i :: 0 <= i < |rows| ==> 0 < |rows[i]| <= ColsPerRow
    ensures forall i :: 0 <= i < |rows| - 1 ==> |rows[i]| == ColsPerRow
  {
    Chunks(seq(|filaments|, i requires 0 <= i < |filaments| => CellOf(filaments[i].1, materials)), ColsPerRow)
  }

  /** What `render` draws once both dicts are fetched. */
  datatype Screen = Screen(view: View, rows: seq<seq<Cell>>)

  /** `render` after the fetch: the filter panel, then the grid of the spools
      the filter leaves, each looked up in the full material dict. */
  function Render(materials: Dict<Key, Material>, filaments: Dict<Key, Filament>, stored: Lists): (s: Screen)
    requires MaterialIndex(materials) && TextFacets(Values(materials)) && LookupsDefined(filaments)
    ensures s.view == RenderMaterials(materials, stored)
    ensures s.rows == Grid(RestrictFilaments(filaments, s.view.filtered, s.view.active), materials)
    ensures forall c :: c in Flatten(s.rows) ==> exists i :: 0 <= i < |filaments| && filaments[i].1 == c.filament
    ensures !s.view.active ==> |Flatten(s.rows)| == |filaments|
                               && forall i :: 0 <= i < |filaments| ==> Flatten(s.rows)[i] == CellOf(filaments[i].1, materials)
    ensures s.view.active ==> forall c :: c in Flatten(s.rows) ==> c.Card?
  {
    var v := RenderMaterials(materials, stored);
    var shown := RestrictFilaments(filaments, v.filtered, v.active);
    RestrictLookups(filaments, v.filtered, v.active);
    GridCellsFrom(shown, materials, filaments);
    if v.active then
      ActiveGridResolves(materials, v.filtered, shown);
      Screen(v, Grid(shown, materials))
    else Screen(v, Grid(shown, materials))
  }

  /** The spools the filter keeps can still be looked up. */
  lemma RestrictLookups(filaments: Dict<Key, Filament>, filtered: seq<Material>, active: bool)
    requires LookupsDefined(filaments)
    ensures LookupsDefined(RestrictFilaments(filaments, filtered, active))
  {
    var shown := RestrictFilaments(filaments, filtered, active);
    forall i | 0 <= i < |shown| ensures Hashable(shown[i].1.materialId) {
      assert shown[i] in shown;
      var j :| 0 <= j < |filaments| && filaments[j] == shown[i];
    }
  }

  /** Every cell of the grid shows one of the given spools. */
  lemma GridCellsFrom(shown: Dict<Key, Filament>, materials: Dict<Key, Material>, filaments: Dict<Key, Filament>)
    requires LookupsDefined(shown)
    requires forall e :: e in shown ==> e in filaments
    ensures forall c :: c in Flatten(Grid(shown, materials)) ==> exists i :: 0 <= i < |filaments| && filaments[i].1 == c.filament
  {
    var cells := Flatten(Grid(shown, materials));
    forall c | c in cells ensures exists i :: 0 <= i < |filaments| && filaments[i].1 == c.filament {
      var k :| 0 <= k < |cells| && cells[k] == c;
      assert shown[k] in shown;
      var j :| 0 <= j < |filaments| && filaments[j] == shown[k];
    }
  }

  /** With a filter active, every spool shown finds its material. */
  lemma ActiveGridResolves(materials: Dict<Key, Material>, filtered: seq<Material>, shown: Dict<Key, Filament>)
    requires MaterialIndex(materials) && LookupsDefined(shown)
    requires forall m :: m in filtered ==> m in Values(materials)
    requires forall e :: e in shown ==> KeyOf(e.1.materialId) in MaterialIds(filtered)
    ensures forall c :: c in Flatten(Grid(shown, materials)) ==> c.Card?
  {
    var cells := Flatten(Grid(shown, materials));
    forall c | c in cells ensures c.Card? {
      var k :| 0 <= k < |cells| && cells[k] == c;
      assert shown[k] in shown;
      ShownHasMaterial(materials, filtered, shown[k].1);
    }
  }

  /** A spool kept by the filter references a filtered material, and every
      filtered material is in the dict under its own id. */
  lemma ShownHasMaterial(materials: Dict<Key, Material>, filtered: seq<Material>, f: Filament)
    requires MaterialIndex(materials)
    requires forall m :: m in filtered ==> m in Values(materials)
    requires Hashable(f.materialId) && KeyOf(f.materialId) in MaterialIds(filtered)
    ensures KeyOf(f.materialId).value in Keys(materials)
  {
    var m :| m in filtered && KeyOf(m.id) == KeyOf(f.materialId);
    var j :| 0 <= j < |Values(materials)| && Values(materials)[j] == m;
    assert KeyOf(materials[j].1.id) == Some(materials[j].0);
  }

  /** `refresh_data`: materials are fetched before spools, so a failing
      material fetch is the error shown; both dicts are keyed by id. */
  function Refresh(materialFetch: Outcome, filamentFetch: Outcome): (r: Result<(Dict<Key, Material>, Dict<Key, Filament>), Error>)
    ensures GetMaterials(materialFetch).Failure? ==> r == Failure(GetMaterials(materialFetch).error)
    ensures GetMaterials(materialFetch).Success? && GetFilaments(filamentFetch).Failure? ==>
              r == Failure(GetFilaments(filamentFetch).error)
    ensures GetMaterials(materialFetch).Success? && GetFilaments(filamentFetch).Success? ==>
              r == Success((GetMaterials(materialFetch).value, GetFilaments(filamentFetch).value))
    ensures r.Success? ==> MaterialIndex(r.value.0) && FilamentIndex(r.value.1)
  {
    var materials :- GetMaterials(materialFetch);
    var filaments :- GetFilaments(filamentFetch);
    Success((materials, filaments))
  }
}

/**
 * The saved history and templates (`lib/storageUtils.ts`): one history list
 * per builder type, most recent first and at most five long, and one
 * template list that grows at the end and shrinks by id. The browser's
 * `localStorage` is a store from key to saved list; JSON text is not
 * modelled, so a saved list reads back as the same list.
 */
module Storage {
  import opened Text
  import opened Types

  /** What a key may hold: a saved history, a saved template list, or text `JSON.parse` rejects. */
  datatype Stored = HistoryList(history: seq<UtmParams>) | TemplateList(templates: seq<UtmTemplate>) | Unparsable

  /** `utm_history_${builderType}`. */
  function HistoryKey(t: BuilderType): string
  {
    "utm_history_" + BuilderTypeName(t)
  }

  const TemplatesKey: string := "utm_templates"

  /** The three history keys and the template key are four different keys. */
  lemma KeysDistinct(t: BuilderType, u: BuilderType)
    ensures HistoryKey(t) == HistoryKey(u) <==> t == u
    ensures HistoryKey(t) != TemplatesKey
  {
    var n := |"utm_history_"|;
    assert HistoryKey(t)[n..] == BuilderTypeName(t) && HistoryKey(u)[n..] == BuilderTypeName(u);
    assert HistoryKey(t)[4] == 'h' && TemplatesKey[4] == 't';
  }

  /** `loadHistory`: the list saved under the type's key; `[]` when the key is missing or unreadable. */
  function HistoryIn(entries: map<string, Stored>, t: BuilderType): seq<UtmParams>
  {
    var key := HistoryKey(t);
    if key in entries && entries[key].HistoryList? then entries[key].history else []
  }

  /** `loadTemplates`: the list saved under `utm_templates`; `[]` when missing or unreadable. */
  function TemplatesIn(entries: map<string, Stored>): seq<UtmTemplate>
  {
    if TemplatesKey in entries && entries[TemplatesKey].TemplateList? then entries[TemplatesKey].templates else []
  }

  /** `filter(h => JSON.stringify(h) !== JSON.stringify(params))`: every copy of `p` removed. */
  function Without(history: seq<UtmParams>, p: UtmParams): (r: seq<UtmParams>)
    ensures |r| <= |history|
    ensures forall x :: x in r <==> x in history && x != p
  {
    if history == [] then []
    else (if history[0] == p then [] else [history[0]]) + Without(history[1..], p)
  }

  /** `[params, ...filtered].slice(0, 5)`. */
  function RecentFirst(p: UtmParams, history: seq<UtmParams>): seq<UtmParams>
  {
    var updated := [p] + Without(history, p);
    if |updated| <= 5 then updated else updated[..5]
  }

  /** `filter(t => t.id !== id)`: every template with that id removed. */
  function WithoutId(templates: seq<UtmTemplate>, id: string): (r: seq<UtmTemplate>)
    ensures |r| <= |templates|
    ensures forall x :: x in r <==> x in templates && x.id != id
  {
    if templates == [] then []
    else (if templates[0].id == id then [] else [templates[0]]) + WithoutId(templates[1..], id)
  }

  /** The id `saveTemplate` gives a template saved at `now` milliseconds: `template_${Date.now()}`. */
  function TemplateId(now: nat): string
  {
    "template_" + NatToString(now)
  }

  /** The browser's `localStorage`, as far as these helpers use it. */
  class LocalStore {
    var entries: map<string, Stored>

    constructor()
      ensures entries == map[]
    {
      entries := map[];
    }

    function LoadHistory(t: BuilderType): seq<UtmParams>
      reads this
    {
      HistoryIn(entries, t)
    }

    function LoadTemplates(): seq<UtmTemplate>
      reads this
    {
      TemplatesIn(entries)
    }

    /** `saveHistory`: `p` goes to the front of its type's list, replacing any earlier copy; five are kept. */
    method SaveHistory(p: UtmParams)
      modifies this
      ensures entries == old(entries)[HistoryKey(p.builderType) := HistoryList(RecentFirst(p, old(LoadHistory(p.builderType))))]
    {
      var key := HistoryKey(p.builderType);
      var existing := LoadHistory(p.builderType);
      var filtered := Without(existing, p);
      var updated := [p] + filtered;
      if |updated| > 5 {
        updated := updated[..5];
      }
      entries := entries[key := HistoryList(updated)];
    }

    /** `saveTemplate`: the parameters, named and given the id of `now`, go to the end of the list. */
    method SaveTemplate(p: UtmParams, templateName: string, now: nat)
      modifies this
      ensures entries == old(entries)[TemplatesKey := TemplateList(old(LoadTemplates()) + [UtmTemplate(p, TemplateId(now), templateName)])]
    {
      var templates := LoadTemplates();
      var newTemplate := UtmTemplate(p, TemplateId(now), templateName);
      entries := entries[TemplatesKey := TemplateList(templates + [newTemplate])];
    }

    /** `deleteTemplate`: every template with the id is removed. */
    method DeleteTemplate(id: string)
      modifies this
      ensures entries == old(entries)[TemplatesKey := TemplateList(WithoutId(old(LoadTemplates()), id))]
    {
      var templates := LoadTemplates();
      entries := entries[TemplatesKey := TemplateList(WithoutId(templates, id))];
    }
  }

  /** Removing copies of `p` keeps the other entries in their order: it distributes over concatenation. */
  lemma {:induction false} WithoutConcat(a: seq<UtmParams>, b: seq<UtmParams>, p: UtmParams)
    ensures Without(a + b, p) == Without(a, p) + Without(b, p)
  {
    if a == [] {
      assert a + b == b;
    } else {
      assert (a + b)[0] == a[0] && (a + b)[1..] == a[1..] + b;
      WithoutConcat(a[1..], b, p);
    }
  }

  /** A list without `p` is left as it is. */
  lemma {:induction false} WithoutAbsent(history: seq<UtmParams>, p: UtmParams)
    requires p !in history
    ensures Without(history, p) == history
  {
    if history != [] {
      WithoutAbsent(history[1..], p);
      assert [history[0]] + history[1..] == history;
    }
  }

  /**
   * After saving `p`, its history starts with `p`, holds `p` exactly once,
   * is at most five long, and continues with the earlier entries other than
   * `p`, in their order, as many as fit.
   */
  lemma RecentFirstShape(p: UtmParams, history: seq<UtmParams>)
    ensures var r := RecentFirst(p, history);
      && 1 <= |r| <= 5 && r[0] == p
      && p !in r[1..] && multiset(r)[p] == 1
      && r[1..] <= Without(history, p)
      && |r| == if |Without(history, p)| < 4 then |Without(history, p)| + 1 else 5
  {
    var r := RecentFirst(p, history);
    var rest := Without(history, p);
    assert r == [p] + r[1..];
    assert r[1..] == rest[..|r| - 1];
    PrefixAvoids(rest, |r| - 1, p);
    OnceInFront(p, r[1..]);
  }

  /** An element absent from a list is absent from its prefixes. */
  lemma PrefixAvoids<T>(s: seq<T>, k: nat, x: T)
    requires k <= |s| && x !in s
    ensures x !in s[..k]
  {
    forall i | 0 <= i < k ensures s[..k][i] != x {
      assert s[..k][i] == s[i];
    }
  }

  /** An element put in front of a list that lacks it occurs exactly once. */
  lemma OnceInFront<T>(x: T, s: seq<T>)
    requires x !in s
    ensures multiset([x] + s)[x] == 1
  {
    assert multiset([x] + s) == multiset([x]) + multiset(s);
  }

  /** Saving the same parameters twice in a row leaves the history as the first save left it. */
  lemma RecentFirstIdempotent(p: UtmParams, history: seq<UtmParams>)
    ensures RecentFirst(p, RecentFirst(p, history)) == RecentFirst(p, history)
  {
    var r := RecentFirst(p, history);
    RecentFirstShape(p, history);
    assert r == [p] + r[1..];
    WithoutConcat([p], r[1..], p);
    WithoutAbsent(r[1..], p);
    assert Without([p], p) == [];
    assert Without(r, p) == r[1..];
  }

  /** Saving history writes only the saved type's list: the other types' lists and the templates are unchanged. */
  lemma HistorySaveFrame(entries: map<string, Stored>, p: UtmParams, t: BuilderType)
    ensures var after := entries[HistoryKey(p.builderType) := HistoryList(RecentFirst(p, HistoryIn(entries, p.builderType)))];
      && HistoryIn(after, p.builderType) == RecentFirst(p, HistoryIn(entries, p.builderType))
      && (t != p.builderType ==> HistoryIn(after, t) == HistoryIn(entries, t))
      && TemplatesIn(after) == TemplatesIn(entries)
  {
    KeysDistinct(t, p.builderType);
  }

  /** Saving or deleting templates leaves every history list unchanged. */
  lemma TemplateSaveFrame(entries: map<string, Stored>, ts: seq<UtmTemplate>, t: BuilderType)
    ensures HistoryIn(entries[TemplatesKey := TemplateList(ts)], t) == HistoryIn(entries, t)
    ensures TemplatesIn(entries[TemplatesKey := TemplateList(ts)]) == ts
  {
    KeysDistinct(t, t);
  }

  /** A key never saved reads as an empty list, whatever else the store holds. */
  lemma MissingReadsEmpty(entries: map<string, Stored>, t: BuilderType)
    ensures HistoryKey(t) !in entries ==> HistoryIn(entries, t) == []
    ensures TemplatesKey !in entries ==> TemplatesIn(entries) == []
  {
  }

  /** An unreadable value under a key reads as an empty list. */
  lemma UnparsableReadsEmpty(entries: map<string, Stored>, t: BuilderType)
    ensures HistoryIn(entries[HistoryKey(t) := Unparsable], t) == []
    ensures TemplatesIn(entries[TemplatesKey := Unparsable]) == []
  {
  }

  /** Deleting by id keeps the other templates in their order: it distributes over concatenation. */
  lemma {:induction false} WithoutIdConcat(a: seq<UtmTemplate>, b: seq<UtmTemplate>, id: string)
    ensures WithoutId(a + b, id) == WithoutId(a, id) + WithoutId(b, id)
  {
    if a == [] {
      assert a + b == b;
    } else {
      assert (a + b)[0] == a[0] && (a + b)[1..] == a[1..] + b;
      WithoutIdConcat(a[1..], b, id);
    }
  }

  /** Deleting an id no template has changes nothing. */
  lemma {:induction false} WithoutIdAbsent(templates: seq<UtmTemplate>, id: string)
    requires forall k :: 0 <= k < |templates| ==> templates[k].id != id
    ensures WithoutId(templates, id) == templates
  {
    if templates != [] {
      WithoutIdAbsent(templates[1..], id);
      assert [templates[0]] + templates[1..] == templates;
    }
  }

  /**
   * Deleting the template just saved, when its id was new, restores the
   * list as it was before the save.
   */
  lemma DeleteUndoesSave(templates: seq<UtmTemplate>, p: UtmParams, templateName: string, now: nat)
    requires forall k :: 0 <= k < |templates| ==> templates[k].id != TemplateId(now)
    ensures WithoutId(templates + [UtmTemplate(p, TemplateId(now), templateName)], TemplateId(now)) == templates
  {
    var t := UtmTemplate(p, TemplateId(now), templateName);
    WithoutIdConcat(templates, [t], TemplateId(now));
    WithoutIdAbsent(templates, TemplateId(now));
    assert WithoutId([t], TemplateId(now)) == [];
  }

  /** A saved template keeps every earlier template in place and ends the list. */
  lemma SaveAppends(templates: seq<UtmTemplate>, p: UtmParams, templateName: string, now: nat)
    ensures var after := templates + [UtmTemplate(p, TemplateId(now), templateName)];
      && |after| == |templates| + 1 && after[..|templates|] == templates
      && after[|templates|].params == p && after[|templates|].templateName == templateName
      && TemplateId(now)[..9] == "template_"
  {
  }
}

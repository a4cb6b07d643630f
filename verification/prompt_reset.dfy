/** The maintenance script that resets the default bots' prompts: every
    default bot that already has a row gets its default prompt back; nothing
    is inserted. */
module PromptReset {
  import opened Strategies

  function DefaultIds(ds: seq<BotDefault>): set<string> {
    set d | d in ds :: d.botId
  }

  /** The table after resetting the defaults `ds`, in order; `existing` is the
      id set read once before the loop. */
  function Reset(rows: seq<Strategy>, ds: seq<BotDefault>, existing: set<string>): seq<Strategy> {
    if ds == [] then rows
    else
      var d := ds[|ds| - 1];
      var before := Reset(rows, ds[..|ds| - 1], existing);
      if d.botId in existing then SetPrompt(before, d.botId, DefaultPrompt(d.botId)) else before
  }

  /** How many of the defaults `ds` have an id in `existing`. */
  function PresentCount(ds: seq<BotDefault>, existing: set<string>): nat {
    if ds == [] then 0
    else PresentCount(ds[..|ds| - 1], existing) + (if ds[|ds| - 1].botId in existing then 1 else 0)
  }

  /** Row by row: a row whose bot is one of the defaults (and in `existing`)
      has its default prompt, every other row is as it was. */
  lemma {:induction false} ResetRows(rows: seq<Strategy>, ds: seq<BotDefault>, existing: set<string>)
    ensures |Reset(rows, ds, existing)| == |rows|
    ensures forall i :: 0 <= i < |rows| ==>
              Reset(rows, ds, existing)[i] ==
                if rows[i].botId in DefaultIds(ds) && rows[i].botId in existing
                then rows[i].(prompt := DefaultPrompt(rows[i].botId))
                else rows[i]
  {
    if ds != [] {
      var init, d := ds[..|ds| - 1], ds[|ds| - 1];
      ResetRows(rows, init, existing);
      assert DefaultIds(ds) == DefaultIds(init) + {d.botId} by {
        assert ds == init + [d];
      }
    }
  }

  /** The reset over the whole table: default bots get their default prompt
      back, other rows are untouched, and no row is added or removed. */
  lemma ResetTable(rows: seq<Strategy>)
    ensures |Reset(rows, Defaults, BotIds(rows))| == |rows|
    ensures forall i :: 0 <= i < |rows| ==>
              Reset(rows, Defaults, BotIds(rows))[i] ==
                if rows[i].botId in DefaultIds(Defaults)
                then rows[i].(prompt := DefaultPrompt(rows[i].botId))
                else rows[i]
  {
    ResetRows(rows, Defaults, BotIds(rows));
    assert forall i :: 0 <= i < |rows| ==> rows[i].botId in BotIds(rows);
  }

  /** A second reset changes nothing. */
  lemma ResetIdempotent(rows: seq<Strategy>)
    ensures Reset(Reset(rows, Defaults, BotIds(rows)), Defaults,
                  BotIds(Reset(rows, Defaults, BotIds(rows)))) ==
            Reset(rows, Defaults, BotIds(rows))
  {
    var once := Reset(rows, Defaults, BotIds(rows));
    ResetTable(rows);
    ResetTable(once);
    assert forall i :: 0 <= i < |rows| ==> once[i].botId == rows[i].botId;
  }

  lemma DefaultIdsSnoc(init: seq<BotDefault>, d: BotDefault)
    ensures DefaultIds(init + [d]) == DefaultIds(init) + {d.botId}
  {
    assert forall e :: e in init + [d] <==> e in init || e == d;
  }

  lemma LastIdFresh(init: seq<BotDefault>, d: BotDefault)
    requires DistinctIds(init + [d])
    ensures d.botId !in DefaultIds(init)
  {
    forall e | e in init ensures e.botId != d.botId {
      var k :| 0 <= k < |init| && init[k] == e;
      var all := init + [d];
      assert all[k] == e && all[|init|] == d;
    }
  }

  lemma OverlapSnoc(init: seq<BotDefault>, d: BotDefault, existing: set<string>)
    requires d.botId !in DefaultIds(init)
    ensures |DefaultIds(init + [d]) * existing| ==
            |DefaultIds(init) * existing| + (if d.botId in existing then 1 else 0)
  {
    DefaultIdsSnoc(init, d);
    var before := DefaultIds(init) * existing;
    if d.botId in existing {
      assert DefaultIds(init + [d]) * existing == before + {d.botId};
    } else {
      assert DefaultIds(init + [d]) * existing == before;
    }
  }

  /** With distinct default ids, the count is the number of default ids that
      have a row. */
  lemma {:induction false} PresentCountIsOverlap(ds: seq<BotDefault>, existing: set<string>)
    requires DistinctIds(ds)
    ensures PresentCount(ds, existing) == |DefaultIds(ds) * existing|
  {
    if ds != [] {
      var init, d := ds[..|ds| - 1], ds[|ds| - 1];
      assert ds == init + [d];
      assert DistinctIds(init);
      PresentCountIsOverlap(init, existing);
      LastIdFresh(init, d);
      OverlapSnoc(init, d, existing);
    }
  }

  /** `update_prompts`: reads the ids once, then overwrites the prompt of
      every default bot found among them and counts the updates. */
  method UpdatePrompts(rows: seq<Strategy>) returns (updated: seq<Strategy>, count: nat)
    ensures updated == Reset(rows, Defaults, BotIds(rows))
    ensures count == |DefaultIds(Defaults) * BotIds(rows)|
  {
    var existing := BotIds(rows);
    updated := rows;
    count := 0;
    for k := 0 to |Defaults|
      invariant updated == Reset(rows, Defaults[..k], existing)
      invariant count == PresentCount(Defaults[..k], existing)
    {
      var d := Defaults[k];
      assert Defaults[..k + 1][..k] == Defaults[..k];
      if d.botId in existing {
        updated := SetPrompt(updated, d.botId, DefaultPrompt(d.botId));
        count := count + 1;
      }
    }
    assert Defaults[..|Defaults|] == Defaults;
    DefaultsDistinct();
    PresentCountIsOverlap(Defaults, existing);
  }
}

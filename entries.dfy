/**
 * The time-entries API (entries.go). Each operation picks a method, a path
 * under `/entries`, optional query parameters and an optional input object,
 * and hands them to the transport with a callback: listing calls fill a
 * page, single-entry calls decode an entry, the others only report an error.
 */
module Entries {
  import opened Wrappers
  import opened Records
  import opened Transport
  import opened Pagination

  /** `emptyEntriesPage`. */
  function EmptyEntriesPage(f: Freckle): (p: Page<Entry>)
    ensures p.links == map[] && p.items == [] && !HasNext(p) && !HasPrevious(p)
    ensures p.client == f && p.decode == f.json.entries
  {
    EmptyPage(f, f.json.entries)
  }

  /** The input object `CreateEntry` sends: the setters' inputs, then the date and minutes. */
  function CreateEntryInputs(fns: seq<Setter<Value>>, date: string, minutes: int): Inputs
  {
    Applied(fns, map[])["date" := Text(date)]["minutes" := Number(minutes)]
  }

  /**
   * The date and minutes given as arguments override whatever a setter put
   * under those names; every other input is the setters' own.
   */
  lemma CreateEntryArgumentsWin(fns: seq<Setter<Value>>, date: string, minutes: int)
    ensures var ins := CreateEntryInputs(fns, date, minutes);
      && ins["date"] == Text(date) && ins["minutes"] == Number(minutes)
      && ins.Keys == Applied(fns, map[]).Keys + {"date", "minutes"}
      && forall k :: k in Applied(fns, map[]) && k != "date" && k != "minutes" ==> ins[k] == Applied(fns, map[])[k]
  {
  }

  /** `ListEntries`: GET /entries with the setters' parameters, filling an entries page. */
  method ListEntries(f: Freckle, fns: seq<Setter<string>>) returns (out: Outcome<Page<Entry>>)
    ensures out == Perform(f, "GET", "/entries", Some(Applied(fns, map[])), None, EmptyEntriesPage(f), Filler(EmptyEntriesPage(f)))
  {
    var result := EmptyEntriesPage(f);
    var ps := ApplySetters(fns);
    out := Do(f, "GET", "/entries", Some(ps), None, result, Filler(result));
  }

  /** `GetEntry`: GET /entries/{id}, decoding one entry. */
  method GetEntry(f: Freckle, id: int) returns (out: Outcome<Entry>)
    ensures out == Perform(f, "GET", "/entries/" + Decimal(id), None, None, ZeroEntry, Decoding(f.json.entry))
  {
    out := Do(f, "GET", "/entries/" + Decimal(id), None, None, ZeroEntry, Decoding(f.json.entry));
  }

  /** `CreateEntry`: POST /entries with the inputs, the date and the minutes, decoding the new entry. */
  method CreateEntry(f: Freckle, date: string, minutes: int, fns: seq<Setter<Value>>) returns (out: Outcome<Entry>)
    ensures out == Perform(f, "POST", "/entries", None, Some(CreateEntryInputs(fns, date, minutes)), ZeroEntry, Decoding(f.json.entry))
  {
    var ins := ApplySetters(fns);
    ins := ins["date" := Text(date)];
    ins := ins["minutes" := Number(minutes)];
    out := Do(f, "POST", "/entries", None, Some(ins), ZeroEntry, Decoding(f.json.entry));
  }

  /** `EditEntry`: PUT /entries/{id} with the setters' inputs, even when there are none. */
  method EditEntry(f: Freckle, id: int, fns: seq<Setter<Value>>) returns (out: Outcome<Entry>)
    ensures out == Perform(f, "PUT", "/entries/" + Decimal(id), None, Some(Applied(fns, map[])), ZeroEntry, Decoding(f.json.entry))
  {
    var ins := ApplySetters(fns);
    out := Do(f, "PUT", "/entries/" + Decimal(id), None, Some(ins), ZeroEntry, Decoding(f.json.entry));
  }

  /** `MarkAsInvoiced`: PUT /entries/{id}/invoiced_outside_of_freckle with the date. */
  method MarkAsInvoiced(f: Freckle, date: string, id: int) returns (err: Option<Error>)
    ensures err == Perform(f, "PUT", "/entries/" + Decimal(id) + "/invoiced_outside_of_freckle", None,
                           Some(map["date" := Text(date)]), (), Ignoring()).error
  {
    var ins: Inputs := map[];
    ins := ins["date" := Text(date)];
    var out := Do(f, "PUT", "/entries/" + Decimal(id) + "/invoiced_outside_of_freckle", None, Some(ins), (), Ignoring());
    err := out.error;
  }

  /**
   * `MarkMultipleAsInvoiced`: PUT /entries/invoiced_outside_of_freckle with the
   * date and the entry ids; `None` stands for a call passing no ids.
   */
  method MarkMultipleAsInvoiced(f: Freckle, date: string, ids: Option<seq<int>>) returns (err: Option<Error>)
    ensures err == Perform(f, "PUT", "/entries/invoiced_outside_of_freckle", None,
                           Some(map["date" := Text(date), "entry_ids" := IdList(ids)]), (), Ignoring()).error
  {
    var ins: Inputs := map[];
    ins := ins["date" := Text(date)];
    ins := ins["entry_ids" := IdList(ids)];
    var out := Do(f, "PUT", "/entries/invoiced_outside_of_freckle", None, Some(ins), (), Ignoring());
    err := out.error;
  }

  /** `DeleteEntry`: DELETE /entries/{id}. */
  method DeleteEntry(f: Freckle, id: int) returns (err: Option<Error>)
    ensures err == Perform(f, "DELETE", "/entries/" + Decimal(id), None, None, (), Ignoring()).error
  {
    var out := Do(f, "DELETE", "/entries/" + Decimal(id), None, None, (), Ignoring());
    err := out.error;
  }
}

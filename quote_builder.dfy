/**
 * The five-step quote builder page: the service and add-on selections
 * (toggled in and out of lists), the integer sums of catalogue prices, the
 * per-step validity test and the step counter.
 */
module QuoteBuilder {
  import Collections
  import Steps

  /** A catalogue entry: an id and its price in dollars. */
  datatype Priced = Priced(id: string, price: nat)

  const ServiceOptions: seq<Priced> := [
    Priced("chatbot", 10000), Priced("analytics", 15000), Priced("vision", 20000),
    Priced("automation", 12000), Priced("strategy", 25000)
  ]

  const AddonOptions: seq<Priced> := [
    Priced("training", 5000), Priced("dashboard", 7500),
    Priced("integration", 8000), Priced("support", 10000)
  ]

  const LastStep: int := 5

  /** The elements other than `id`. */
  function Other(id: string): string -> bool
  {
    (x: string) => x != id
  }

  /**
   * `toggleService` / `toggleAddon`: an id already selected is removed (every
   * copy of it), the others keeping their order and multiplicities; a new id
   * is appended at the end.
   */
  function Toggle(selected: seq<string>, id: string): (r: seq<string>)
    ensures id in selected ==> id !in r && Collections.IsSubsequence(r, selected)
    ensures id in selected ==> forall x :: x != id ==> multiset(r)[x] == multiset(selected)[x]
    ensures id !in selected ==> r == selected + [id]
  {
    if id in selected then
      Collections.FilterCounts(selected, Other(id));
      Collections.FilterSubsequence(selected, Other(id));
      Collections.Filter(selected, Other(id))
    else selected + [id]
  }

  /** Toggling an id that is not selected twice gives back the original selection. */
  lemma ToggleTwice(selected: seq<string>, id: string)
    requires id !in selected
    ensures Toggle(Toggle(selected, id), id) == selected
  {
    Collections.FilterAppend(selected, [id], Other(id));
    Collections.FilterAll(selected, Other(id));
  }

  /** Position of the first catalogue entry with id `id`, or `|catalog|` when there is none. */
  function Find(catalog: seq<Priced>, id: string): (k: nat)
    ensures k <= |catalog|
    ensures k < |catalog| ==> catalog[k].id == id
    ensures forall j :: 0 <= j < k ==> catalog[j].id != id
  {
    if catalog == [] then 0 else if catalog[0].id == id then 0 else 1 + Find(catalog[1..], id)
  }

  /** `catalog.find(s => s.id === id)?.price || 0`. */
  function PriceOf(catalog: seq<Priced>, id: string): (p: nat)
    ensures Find(catalog, id) == |catalog| ==> p == 0
    ensures Find(catalog, id) < |catalog| ==> p == catalog[Find(catalog, id)].price
  {
    var k := Find(catalog, id);
    if k < |catalog| then catalog[k].price else 0
  }

  /** `ids.reduce((total, id) => total + price(id), 0)`. */
  function Total(ids: seq<string>, catalog: seq<Priced>): nat
  {
    if ids == [] then 0 else Total(ids[..|ids| - 1], catalog) + PriceOf(catalog, ids[|ids| - 1])
  }

  /** `servicesTotal`. */
  function ServicesTotal(selected: seq<string>): nat
  {
    Total(selected, ServiceOptions)
  }

  /** `addonsTotal`. */
  function AddonsTotal(selected: seq<string>): nat
  {
    Total(selected, AddonOptions)
  }

  /** The id is listed in the catalogue. */
  function Known(catalog: seq<Priced>): string -> bool
  {
    (id: string) => Find(catalog, id) < |catalog|
  }

  /** Ids missing from the catalogue contribute nothing: the total is that of the known ids alone. */
  lemma {:induction false} TotalKnownOnly(ids: seq<string>, catalog: seq<Priced>)
    ensures Total(ids, catalog) == Total(Collections.Filter(ids, Known(catalog)), catalog)
  {
    if ids != [] {
      var init, last := ids[..|ids| - 1], ids[|ids| - 1];
      assert ids == init + [last];
      TotalKnownOnly(init, catalog);
      Collections.FilterSnoc(init, last, Known(catalog));
      TotalSnoc(init, last, catalog);
      var kept := Collections.Filter(init, Known(catalog));
      if Known(catalog)(last) {
        TotalSnoc(kept, last, catalog);
      }
    }
  }

  /** One more id adds its price. */
  lemma TotalSnoc(ids: seq<string>, id: string, catalog: seq<Priced>)
    ensures Total(ids + [id], catalog) == Total(ids, catalog) + PriceOf(catalog, id)
  {
    assert (ids + [id])[..|ids|] == ids;
  }

  /** The total of a concatenation is the sum of the totals. */
  lemma {:induction false} TotalAppend(xs: seq<string>, ys: seq<string>, catalog: seq<Priced>)
    ensures Total(xs + ys, catalog) == Total(xs, catalog) + Total(ys, catalog)
  {
    if ys != [] {
      var init := ys[..|ys| - 1];
      assert (xs + ys)[..|xs + ys| - 1] == xs + init;
      assert (xs + ys)[|xs + ys| - 1] == ys[|ys| - 1];
      TotalAppend(xs, init, catalog);
    } else {
      assert xs + ys == xs;
    }
  }

  /** No two catalogue entries share an id. */
  ghost predicate DistinctIds(catalog: seq<Priced>)
  {
    forall i, j :: 0 <= i < j < |catalog| ==> catalog[i].id != catalog[j].id
  }

  /** In a catalogue without duplicate ids, each entry's id looks up its own price. */
  lemma PriceOfEntry(catalog: seq<Priced>, i: nat)
    requires DistinctIds(catalog) && i < |catalog|
    ensures PriceOf(catalog, catalog[i].id) == catalog[i].price
  {
    var k := Find(catalog, catalog[i].id);
    assert k <= i;
  }

  /** Selecting a known service raises `servicesTotal` by exactly its base price. */
  lemma ServicesTotalSelect(selected: seq<string>, i: nat)
    requires i < |ServiceOptions|
    ensures ServicesTotal(selected + [ServiceOptions[i].id]) == ServicesTotal(selected) + ServiceOptions[i].price
  {
    PriceOfEntry(ServiceOptions, i);
    TotalAppend(selected, [ServiceOptions[i].id], ServiceOptions);
    assert [ServiceOptions[i].id][..0] == [];
  }

  /** Selecting a known add-on raises `addonsTotal` by exactly its price. */
  lemma AddonsTotalSelect(selected: seq<string>, i: nat)
    requires i < |AddonOptions|
    ensures AddonsTotal(selected + [AddonOptions[i].id]) == AddonsTotal(selected) + AddonOptions[i].price
  {
    PriceOfEntry(AddonOptions, i);
    TotalAppend(selected, [AddonOptions[i].id], AddonOptions);
    assert [AddonOptions[i].id][..0] == [];
  }

  /** The contact details collected on step 5. */
  datatype Contact = Contact(name: string, email: string, company: string, message: string)

  /** `isStepValid`: what each step needs before the wizard may move on. */
  predicate StepValid(step: int, services: seq<string>, complexity: string, timeline: string, contact: Contact)
  {
    match step
    case 1 => |services| > 0
    case 2 => complexity != ""
    case 3 => timeline != ""
    case 4 => true
    case 5 => contact.name != "" && contact.email != ""
    case _ => false
  }

  /**
   * Step 1 after a toggle: adding a new service always makes it valid;
   * removing one leaves it valid exactly when another service stays selected.
   */
  lemma ToggleStepOne(services: seq<string>, id: string, complexity: string, timeline: string, contact: Contact)
    ensures StepValid(1, Toggle(services, id), complexity, timeline, contact)
      <==> id !in services || exists x :: x in services && x != id
  {
    var r := Toggle(services, id);
    if id in services && (exists x :: x in services && x != id) {
      var x :| x in services && x != id;
      Collections.FilterCounts(services, Other(id));
      assert multiset(r)[x] == multiset(services)[x];
      assert x in r;
    } else if id in services {
      Collections.FilterNone(services, Other(id));
    }
  }

  /** The page's state: the current step and the user's choices. */
  class Page {
    var activeStep: int
    var selectedServices: seq<string>
    var complexity: string
    var timeline: string
    var selectedAddons: seq<string>
    var contact: Contact

    /** The step counter stays within the five steps. */
    predicate Valid()
      reads this
    {
      1 <= activeStep <= LastStep
    }

    /** The initial state: step 1, nothing selected, medium complexity, standard timeline. */
    constructor()
      ensures Valid()
      ensures activeStep == 1 && selectedServices == [] && selectedAddons == []
      ensures complexity == "medium" && timeline == "standard"
      ensures contact == Contact("", "", "", "")
    {
      activeStep := 1;
      selectedServices := [];
      complexity := "medium";
      timeline := "standard";
      selectedAddons := [];
      contact := Contact("", "", "", "");
    }

    /** `isStepValid()` for the current step. */
    predicate IsStepValid()
      reads this
    {
      StepValid(activeStep, selectedServices, complexity, timeline, contact)
    }

    /** `handleNextStep`: forward one step unless on the last; nothing else changes. */
    method HandleNextStep()
      requires Valid()
      modifies this
      ensures Valid()
      ensures activeStep == Steps.Next(old(activeStep), LastStep)
      ensures selectedServices == old(selectedServices) && selectedAddons == old(selectedAddons)
      ensures complexity == old(complexity) && timeline == old(timeline) && contact == old(contact)
    {
      if activeStep < LastStep {
        activeStep := activeStep + 1;
      }
    }

    /** `handlePrevStep`: back one step unless on the first; nothing else changes. */
    method HandlePrevStep()
      requires Valid()
      modifies this
      ensures Valid()
      ensures activeStep == Steps.Prev(old(activeStep))
      ensures selectedServices == old(selectedServices) && selectedAddons == old(selectedAddons)
      ensures complexity == old(complexity) && timeline == old(timeline) && contact == old(contact)
    {
      if activeStep > 1 {
        activeStep := activeStep - 1;
      }
    }

    /** `toggleService`: only the service selection changes. */
    method ToggleService(id: string)
      modifies this
      ensures selectedServices == Toggle(old(selectedServices), id)
      ensures activeStep == old(activeStep) && selectedAddons == old(selectedAddons)
      ensures complexity == old(complexity) && timeline == old(timeline) && contact == old(contact)
    {
      selectedServices := Toggle(selectedServices, id);
    }

    /** `toggleAddon`: only the add-on selection changes. */
    method ToggleAddon(id: string)
      modifies this
      ensures selectedAddons == Toggle(old(selectedAddons), id)
      ensures activeStep == old(activeStep) && selectedServices == old(selectedServices)
      ensures complexity == old(complexity) && timeline == old(timeline) && contact == old(contact)
    {
      selectedAddons := Toggle(selectedAddons, id);
    }
  }
}

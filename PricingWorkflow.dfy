/** The three-step pricing page: Upload (1), Pricing (2), Export (3). */
module PricingWorkflow {
  import opened Common
  import opened Orders

  const Upload: int := 1
  const Price: int := 2
  const Export: int := 3

  /** The name shown when no file has been uploaded (or its name is empty). */
  const DefaultFileName: string := "Pelhřimov_Budget_v1.xlsx"

  /** The step an order's status selects when the page receives it. */
  function StepForStatus(s: Status): (step: int)
    ensures s == InProgress ==> step == Price
    ensures s == Completed ==> step == Export
    ensures s == New ==> step == Upload
  {
    match s
    case InProgress => Price
    case Completed => Export
    case New => Upload
  }

  /** The seeded orders open the page at Pricing, Upload and Export in turn,
      so every step is reachable from the order list. */
  lemma SeedOrdersOpenEveryStep()
    ensures |MockOrders()| == 3
    ensures StepForStatus(MockOrders()[0].status) == Price
    ensures StepForStatus(MockOrders()[1].status) == Upload
    ensures StepForStatus(MockOrders()[2].status) == Export
  {
  }

  datatype StepState = Done | Current | Pending

  /** How the stepper draws entry `id` while the page is at `step`. */
  function StepStateOf(step: int, id: int): (st: StepState)
    ensures st == Done <==> id < step
    ensures st == Current <==> id == step
    ensures st == Pending <==> id > step
  {
    if step > id then Done else if step == id then Current else Pending
  }

  /** On any valid step exactly one of the three entries is current, and the
      entries before it are done. */
  lemma ExactlyOneCurrent(step: int)
    requires Upload <= step <= Export
    ensures exists id :: Upload <= id <= Export && StepStateOf(step, id) == Current
    ensures forall i, j ::
      (Upload <= i <= Export && Upload <= j <= Export &&
       StepStateOf(step, i) == Current && StepStateOf(step, j) == Current) ==> i == j
  {
    assert StepStateOf(step, step) == Current;
  }

  /** The uploaded file's name, or the default when there is none or it is empty. */
  function ShownFileName(file: Option<string>): (name: string)
    ensures name != ""
    ensures file.Some? && file.value != "" ==> name == file.value
    ensures file.None? || file.value == "" ==> name == DefaultFileName
  {
    if file.Some? && file.value != "" then file.value else DefaultFileName
  }

  /** The step component on screen. */
  datatype View = UploadView | PricingView(fileName: string) | ExportView(fileName: string) | NoView

  function ViewOf(step: int, file: Option<string>): (v: View)
    ensures Upload <= step <= Export <==> v != NoView
    ensures v == UploadView <==> step == Upload
    ensures v.PricingView? <==> step == Price
    ensures v.ExportView? <==> step == Export
    ensures v.PricingView? || v.ExportView? ==> v.fileName == ShownFileName(file)
  {
    if step == Upload then UploadView
    else if step == Price then PricingView(ShownFileName(file))
    else if step == Export then ExportView(ShownFileName(file))
    else NoView
  }

  /** The page's `step` and `file` state and its one upload timer kind. */
  class PricingPage {
    var step: int
    var file: Option<string>
    /** Upload timers scheduled and not yet fired. */
    var pendingUploads: nat

    ghost predicate Valid()
      reads this
    {
      Upload <= step <= Export
    }

    constructor()
      ensures Valid()
      ensures step == Upload && file == None && pendingUploads == 0
    {
      step := Upload;
      file := None;
      pendingUploads := 0;
    }

    /** The effect on `initialOrder`: a supplied order's status picks the step. */
    method ReceiveOrder(order: Option<Order>)
      requires Valid()
      modifies this
      ensures Valid()
      ensures step == if order.Some? then StepForStatus(order.value.status) else old(step)
      ensures file == old(file) && pendingUploads == old(pendingUploads)
    {
      if order.Some? {
        step := StepForStatus(order.value.status);
      }
    }

    /** `handleUpload`: records the file and schedules the move to Pricing. */
    method StartUpload(fileName: string)
      requires Valid()
      modifies this
      ensures Valid()
      ensures file == Some(fileName) && step == old(step)
      ensures pendingUploads == old(pendingUploads) + 1
    {
      file := Some(fileName);
      pendingUploads := pendingUploads + 1;
    }

    /** The upload timer fires. */
    method CompleteUpload()
      requires Valid() && pendingUploads > 0
      modifies this
      ensures Valid()
      ensures step == Price && file == old(file)
      ensures pendingUploads == old(pendingUploads) - 1
    {
      step := Price;
      pendingUploads := pendingUploads - 1;
    }

    /** `handlePricingComplete`: proceed to Export. */
    method PricingComplete()
      requires Valid()
      modifies this
      ensures Valid()
      ensures step == Export && file == old(file) && pendingUploads == old(pendingUploads)
    {
      step := Export;
    }

    function CurrentView(): (v: View)
      reads this
      requires Valid()
      ensures v != NoView
    {
      ViewOf(step, file)
    }
  }

  /** Uploading and then proceeding walks an empty page through all three steps
      and shows the uploaded file's name. */
  method UploadThenExport(name: string) returns (v: View)
    requires name != ""
    ensures v == ExportView(name)
  {
    var page := new PricingPage();
    assert page.CurrentView() == UploadView;
    page.StartUpload(name);
    page.CompleteUpload();
    assert page.CurrentView() == PricingView(name);
    page.PricingComplete();
    v := page.CurrentView();
  }
}

/** The tutorial window: a fixed list of pages and a current step that the
    Previous and Next buttons move; Next on the last page closes the window. */
module Tutorial {

  datatype Step = Step(title: string, text: string)

  /** The four pages the window shows. */
  const Steps: seq<Step> := [
    Step("Welcome to File Transfer Tool!",
         "This program helps you automatically find and copy files based on catalog numbers from an Excel list."),
    Step("Step 1: Excel File",
         "Select an Excel file that contains the catalog numbers in column B that you want to search for."),
    Step("Step 2: Source Folder",
         "Select the folder where the files should be searched. The program will automatically search all subfolders."),
    Step("Step 3: Target Folder",
         "Select the folder where the found files should be copied to.")
  ]

  class TutorialWindow {
    const steps: seq<Step>
    var currentStep: nat
    /** False once the window has been destroyed. */
    var isOpen: bool

    /** The step index always names a page. */
    ghost predicate Valid()
      reads this
    {
      0 < |steps| && currentStep < |steps|
    }

    constructor ()
      ensures Valid() && steps == Steps && currentStep == 0 && isOpen
    {
      steps := Steps;
      currentStep := 0;
      isOpen := true;
    }

    /** The page `show_current_step` displays. */
    function CurrentPage(): Step
      reads this
      requires Valid()
    {
      steps[currentStep]
    }

    /** Previous: one page back; on the first page nothing happens. */
    method PreviousStep()
      requires Valid()
      modifies this`currentStep
      ensures Valid()
      ensures old(currentStep) == 0 ==> currentStep == 0
      ensures old(currentStep) > 0 ==> currentStep == old(currentStep) - 1
    {
      if currentStep > 0 {
        currentStep := currentStep - 1;
      }
    }

    /** Next: one page forward; on the last page the window closes instead
        and the step stays where it is. */
    method NextStep()
      requires Valid()
      modifies this`currentStep, this`isOpen
      ensures Valid()
      ensures old(currentStep) < |steps| - 1 ==> currentStep == old(currentStep) + 1 && isOpen == old(isOpen)
      ensures old(currentStep) == |steps| - 1 ==> currentStep == old(currentStep) && !isOpen
    {
      if currentStep < |steps| - 1 {
        currentStep := currentStep + 1;
      } else {
        isOpen := false;
      }
    }
  }

  /** From a freshly opened window, Next pressed once per page closes it:
      three presses reach the last page and the fourth closes the window. */
  method WalkThrough() returns (pages: seq<Step>, closed: bool)
    ensures pages == Steps && closed
  {
    var w := new TutorialWindow();
    pages := [w.CurrentPage()];
    while w.isOpen
      invariant w.Valid() && w.steps == Steps
      invariant w.isOpen ==> pages == Steps[..w.currentStep + 1]
      invariant !w.isOpen ==> pages == Steps
      decreases (if w.isOpen then 1 else 0) + |w.steps| - w.currentStep
    {
      w.NextStep();
      if w.isOpen {
        pages := pages + [w.CurrentPage()];
      }
    }
    closed := !w.isOpen;
  }
}

/** How reaching the target value turns into granted criteria. */
module GrantModes {

  datatype GrantMode =
    /** All remaining criteria are granted once progress reaches the target value. */
    | AllAtOnce
    /** The next uncompleted criterion is granted each time progress reaches the target value. */
    | StepByStep
}

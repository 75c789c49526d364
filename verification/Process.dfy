/** Running one external command, as far as the callers can tell. */
module Process {
  /**
   What goes wrong around a command besides the command's own refusal. `NotRun`: the child never
   ran it (fork, pipe or exec failed). `StatusLost`: it ran, but its exit status was not seen.
   */
  datatype Fault = NoFault | NotRun | StatusLost

  /** Nothing goes wrong with the commands from number `from` up to `to`. */
  predicate Faultless(faults: nat -> Fault, from: nat, to: nat)
  {
    forall i | from <= i < to :: faults(i) == NoFault
  }

  lemma FaultlessSplit(faults: nat -> Fault, m: nat, n: nat, end: nat)
    requires m <= n <= end
    ensures Faultless(faults, 0, n) <==> Faultless(faults, 0, m) && Faultless(faults, m, n)
    ensures Faultless(faults, 0, end) ==> Faultless(faults, m, n)
  {
  }

  lemma FaultlessTriple(faults: nat -> Fault, base: nat)
    ensures Faultless(faults, base, base + 3) <==>
            faults(base) == NoFault && faults(base + 1) == NoFault && faults(base + 2) == NoFault
  {
  }
}

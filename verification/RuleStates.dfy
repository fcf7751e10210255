/** internal/context/pfcp_rules.go: the states of a PDR, FAR, QER, BAR or URR object. */
module RuleStates {
  datatype RuleState = INITIAL | CREATE | UPDATE | REMOVE | QUERY
}

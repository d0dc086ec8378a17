/** The watchdog's effects on the outside world (status queries, tmux commands,
    the host power-off and sleeps), recorded in the order they are issued. */
module Effects {

  /** Seconds slept once, before the first poll cycle. */
  const GRACE_PERIOD_SECONDS: nat := 600

  /** Seconds slept between two poll cycles. */
  const INTERVAL_SECONDS: nat := 900

  datatype Action =
    | Query(address: string)        // status query of the server at `address`
    | HasSession(session: string)   // `tmux has-session -t session`
    | SendStop(session: string)     // `tmux send-keys -t session /stop C-m`
    | SendEnter(session: string)    // `tmux send-keys -t session C-m`
    | KillSession(session: string)  // `tmux kill-session -t session`
    | PowerOff                      // `sudo shutdown`, its failure ignored
    | Sleep(seconds: nat)           // a blocking sleep
}

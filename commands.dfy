/** The messages exchanged between the interface, the control loop and its
    workers (src/launcher/commands.rs). */
module Commands {
  datatype Command =
    | Run                                 // launch the game
    | Continue                            // the game has exited; back to the launcher
    | Validate                            // checking the installed files
    | Download(downloaded: nat, size: nat) // progress of the game download (u64 in the source)
    | Unziping                            // extracting the downloaded archive
    | Play                                // the game is ready
    | Error(message: string)
    | None                                // nothing
    | Exit                                // leave the launcher
}

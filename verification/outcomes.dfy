/** Error kinds raised by the simulators and formulas, and the Result type that
    replaces Python's exceptions. */
module Outcomes {

  datatype Error =
    | Unstable             // ValueError: arrival rate not below service rate
    | InvalidDistribution  // ValueError from hyperx: standard deviation not above the mean
    | MathDomain           // ValueError from math.sqrt on a negative argument
    | ZeroDivision         // ZeroDivisionError
    | IndexOutOfRange      // IndexError (arrival_times[0] on an empty list)
    | NotEnoughData        // statistics.StatisticsError (mean of no data, stdev of one point)

  datatype Result<+T> = Ok(value: T) | Err(error: Error)
}

/** What the remote price sources hand back, abstractly: the network is not
    modelled, only the replies it may produce. */
module Feeds {
  import opened Wrappers

  /** One HTTP exchange: the request raised (network error, timeout or a body
      that does not parse), the status was not a success, or a body arrived. */
  datatype Response<T> = Failed | NotOk | Body(body: T)

  /** The part of a Yahoo chart reply the readers use: `result[0].timestamp`
      and the arrays of `indicators.quote[0]`. A missing array is empty; a
      JSON `null` entry is None. Timestamps appear as the UTC calendar dates
      (`YYYY-MM-DD`) they fall on. */
  datatype ChartReply = ChartReply(dates: seq<string>,
                                   opens: seq<Option<real>>, highs: seq<Option<real>>,
                                   lows: seq<Option<real>>, closes: seq<Option<real>>,
                                   volumes: seq<Option<real>>)
}

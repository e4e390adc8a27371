/**
 * The checks `metrics_visualization` makes on its list of metric names
 * before it computes anything: STOI and WB_PESQ must be present, and every
 * name must be registered.
 */
module Metrics {

  const Stoi: string := "STOI"
  const WbPesq: string := "WB_PESQ"

  /** Which assertion, if any, stops `metrics_visualization`. */
  datatype MetricsCheck = MetricsAccepted | MissingRequiredMetric | UnregisteredMetric(name: string)

  /**
   * Checks a metric list against the registered names. It fails first when
   * STOI or WB_PESQ is missing, then at the first name in list order that is
   * not registered, and accepts a list that passes both.
   */
  method CheckMetrics(metricsList: seq<string>, registered: set<string>) returns (r: MetricsCheck)
    ensures r == MissingRequiredMetric <==> !(Stoi in metricsList && WbPesq in metricsList)
    ensures r == MetricsAccepted <==>
              Stoi in metricsList && WbPesq in metricsList &&
              forall i :: 0 <= i < |metricsList| ==> metricsList[i] in registered
    ensures r.UnregisteredMetric? ==>
              Stoi in metricsList && WbPesq in metricsList &&
              exists i :: 0 <= i < |metricsList| && metricsList[i] == r.name && r.name !in registered &&
                          forall j :: 0 <= j < i ==> metricsList[j] in registered
  {
    if !(Stoi in metricsList && WbPesq in metricsList) {
      return MissingRequiredMetric;
    }
    var i := 0;
    while i < |metricsList|
      invariant 0 <= i <= |metricsList|
      invariant forall j :: 0 <= j < i ==> metricsList[j] in registered
    {
      if metricsList[i] !in registered {
        return UnregisteredMetric(metricsList[i]);
      }
      i := i + 1;
    }
    return MetricsAccepted;
  }
}

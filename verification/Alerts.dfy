/** The alert dictionaries both halves of the alert manager read. */
module Alerts {
  import opened Common

  /** An alert's optional entries; an absent one takes the reader's default. */
  datatype Alert = Alert(entity: Option<string>, metric: Option<string>, state: Option<string>, severity: Option<string>)

  function GetOr(v: Option<string>, default: string): string {
    match v case None => default case Some(s) => s
  }

  function EntityOf(alert: Alert): string { GetOr(alert.entity, "unknown") }
  function MetricOf(alert: Alert): string { GetOr(alert.metric, "unknown") }

  /** The alert's entity and metric, each as given or the default. */
  predicate IsAbout(alert: Alert, entity: string, metric: string) {
    && (alert.entity == Some(entity) || (alert.entity == None && entity == "unknown"))
    && (alert.metric == Some(metric) || (alert.metric == None && metric == "unknown"))
  }
}

/** The `/fetch_posts` route of app.py: the numbering loop of Feed followed
    by check_thresholds of the shared alert store. */
module WebApp {
  import opened Feed
  import opened Alerts

  /** fetch_posts of app.py: every relevant submission numbered in feed
      order, and exactly the alerts check_thresholds raises for that list,
      which are appended to the store. */
  method FetchPosts(manager: AlertRule, feed: seq<Submission>, now: string)
    returns (posts: seq<Post>, newAlerts: seq<Alert>)
    modifies manager
    ensures posts == NumberAll(Relevants(feed))
    ensures newAlerts == NewAlerts(|old(manager.alerts)|, posts, now)
    ensures manager.alerts == old(manager.alerts) + newAlerts
    ensures manager.saved == if newAlerts == [] then old(manager.saved) else manager.alerts
    ensures old(manager.Valid()) ==> manager.Valid()
  {
    var count;
    posts, count := CollectPosts(feed);
    newAlerts := manager.CheckThresholds(posts, now);
  }
}
